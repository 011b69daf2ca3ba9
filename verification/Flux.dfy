/**
 The Flux adapter: the bounded list of objects that are not ready, from the same fan-out as the
 Kubernetes list but with its own readiness rule and its own paths.
 */
module Flux {
  import opened Text
  import opened Errors
  import opened Contracts
  import opened Policy
  import opened Encoding
  import opened Sorting
  import opened TopList
  import opened Fanout
  import opened Scopes
  import Kubernetes

  /** A status condition, with its transition time as parsed to UTC, if it parses. */
  datatype Condition = Condition(typ: string, status: string, reason: string, lastTransition: Option<Instant>)

  datatype Object = Object(name: string, conditions: seq<Condition>)

  /** The answers of the source by path. */
  type Source = string -> Kubernetes.Body<Object>

  const KINDS: seq<string> := [KUSTOMIZATION, HELM_RELEASE, GIT_REPOSITORY]

  function ResourceGroup(kind: string): string {
    if kind == KUSTOMIZATION then "/apis/kustomize.toolkit.fluxcd.io/v1"
    else if kind == HELM_RELEASE then "/apis/helm.toolkit.fluxcd.io/v2"
    else "/apis/source.toolkit.fluxcd.io/v1"
  }

  function ResourceName(kind: string): string {
    if kind == KUSTOMIZATION then "kustomizations"
    else if kind == HELM_RELEASE then "helmreleases"
    else "gitrepositories"
  }

  function KindPrefix(kind: string): string {
    ResourceGroup(kind) + "/namespaces/"
  }

  /** The path `listResources` asks for. */
  function RequestPath(r: Request): string {
    KindPrefix(r.kind) + Kubernetes.PathEscape(r.scope.namespace) + "/" + ResourceName(r.kind)
  }

  /** `listResources`: request errors are passed on unchanged. */
  function ListResources(source: Source, r: Request): Reply<Object> {
    match source(RequestPath(r))
    case Decoded(items, token) => Fetched(items, token)
    case Malformed => Failed(Value(SourceInvalidResponse))
    case NotFetched(error) => Failed(error)
  }

  function Replies(source: Source): Request -> Reply<Object> {
    (r: Request) => ListResources(source, r)
  }

  /** The path of each kind, with the namespace as it is. */
  lemma PathsAreFixed(scope: Scope)
    requires Label(scope.namespace)
    ensures RequestPath(Request(scope, "Kustomization"))
         == "/apis/kustomize.toolkit.fluxcd.io/v1/namespaces/" + scope.namespace + "/kustomizations"
    ensures RequestPath(Request(scope, "HelmRelease"))
         == "/apis/helm.toolkit.fluxcd.io/v2/namespaces/" + scope.namespace + "/helmreleases"
    ensures RequestPath(Request(scope, "GitRepository"))
         == "/apis/source.toolkit.fluxcd.io/v1/namespaces/" + scope.namespace + "/gitrepositories"
  {
    hide Kubernetes.PathEscape, KindPrefix, ResourceName;
    Kubernetes.LabelIsNotEscaped(scope.namespace);
    KustomizationPath();
    HelmReleasePath();
    GitRepositoryPath();
    assert forall a: string, b: string, c: string :: a + b + "/" + c == a + b + ("/" + c);
  }

  lemma KustomizationPath()
    ensures KindPrefix("Kustomization") == "/apis/kustomize.toolkit.fluxcd.io/v1/namespaces/"
    ensures "/" + ResourceName("Kustomization") == "/kustomizations"
  {
    Appended("/apis/kustomize.toolkit.fluxcd.io/v1", "/apis/kustomize.toolkit.fluxcd.io/v1/namespaces/");
  }

  lemma HelmReleasePath()
    ensures KindPrefix("HelmRelease") == "/apis/helm.toolkit.fluxcd.io/v2/namespaces/"
    ensures "/" + ResourceName("HelmRelease") == "/helmreleases"
  {
    assert "HelmRelease"[0] != "Kustomization"[0];
    Appended("/apis/helm.toolkit.fluxcd.io/v2", "/apis/helm.toolkit.fluxcd.io/v2/namespaces/");
  }

  lemma GitRepositoryPath()
    ensures KindPrefix("GitRepository") == "/apis/source.toolkit.fluxcd.io/v1/namespaces/"
    ensures "/" + ResourceName("GitRepository") == "/gitrepositories"
  {
    assert "GitRepository"[0] != "Kustomization"[0] && "GitRepository"[0] != "HelmRelease"[0];
    Appended("/apis/source.toolkit.fluxcd.io/v1", "/apis/source.toolkit.fluxcd.io/v1/namespaces/");
  }

  lemma Appended(group: string, whole: string)
    requires |whole| == |group| + 12 && whole[..|group|] == group && whole[|group|..] == "/namespaces/"
    ensures group + "/namespaces/" == whole
  {
  }

  /** Namespace and kind can be read off a Flux path as well. */
  lemma PathsAreDistinct(r: Request, q: Request)
    requires Label(r.scope.namespace) && Label(q.scope.namespace) && r.kind in KINDS && q.kind in KINDS
    ensures RequestPath(r) == RequestPath(q) <==> r.scope.namespace == q.scope.namespace && r.kind == q.kind
  {
    hide ResourceName, KindPrefix, Kubernetes.PathEscape;
    Kubernetes.LabelIsNotEscaped(r.scope.namespace);
    Kubernetes.LabelIsNotEscaped(q.scope.namespace);
    if RequestPath(r) == RequestPath(q) {
      GroupsDiffer(r, q);
      var prefix, resource := KindPrefix(r.kind), ResourceName(r.kind);
      var n, m := r.scope.namespace, q.scope.namespace;
      assert prefix + (n + "/" + resource) == RequestPath(r) == RequestPath(q) == prefix + (m + "/" + resource);
      assert n + "/" + resource == m + "/" + resource by {
        AfterPrefix(prefix, n + "/" + resource, m + "/" + resource);
      }
      Kubernetes.NamespaceRecoverable(n, resource, m, resource);
    }
  }

  lemma AfterPrefix(prefix: string, s: string, t: string)
    requires prefix + s == prefix + t
    ensures s == t
  {
    assert (prefix + s)[|prefix|..] == s && (prefix + t)[|prefix|..] == t;
  }

  lemma GroupsDiffer(r: Request, q: Request)
    requires r.kind in KINDS && q.kind in KINDS && RequestPath(r) == RequestPath(q)
    ensures r.kind == q.kind
  {
    hide ResourceName, KindPrefix;
    GroupByte(r.kind);
    GroupByte(q.kind);
    assert RequestPath(r)[6] == KindPrefix(r.kind)[6] && RequestPath(q)[6] == KindPrefix(q.kind)[6];
  }

  /** The groups differ in the byte after "/apis/". */
  lemma GroupByte(kind: string)
    requires kind in KINDS
    ensures |KindPrefix(kind)| > 6
    ensures KindPrefix(kind)[6] == if kind == KUSTOMIZATION then 'k' else if kind == HELM_RELEASE then 'h' else 's'
    ensures kind == KUSTOMIZATION || kind == HELM_RELEASE || kind == GIT_REPOSITORY
  {
    assert KindPrefix(kind)[6] == ResourceGroup(kind)[6];
  }

  /** No Flux list is requested twice in one observation either. */
  lemma RequestsDoNotOverlap(table: map<string, string>, scopes: seq<Scope>)
    requires ValidTable(table) && Enumerates(table, scopes)
    ensures |Requests(scopes, KINDS)| == 3 * |table|
    ensures forall i, j | 0 <= i < j < |Requests(scopes, KINDS)| ::
              RequestPath(Requests(scopes, KINDS)[i]) != RequestPath(Requests(scopes, KINDS)[j])
  {
    hide Requests, RequestPath;
    var requests := Requests(scopes, KINDS);
    EnumerationLength(table, scopes);
    ThreePerScope(scopes, KINDS);
    EnumerationIsDistinct(table, scopes);
    KindsAreDistinct();
    RequestsAreDistinct(scopes, KINDS);
    RequestsMembers(scopes, KINDS);
    forall i, j | 0 <= i < j < |requests| ensures RequestPath(requests[i]) != RequestPath(requests[j]) {
      var r, q := requests[i], requests[j];
      assert r in requests && q in requests;
      assert r.scope.id in table && q.scope.id in table;
      PathsAreDistinct(r, q);
    }
  }

  lemma KindsAreDistinct()
    ensures |KINDS| == 3 && Distinct(KINDS)
  {
    assert |KUSTOMIZATION| == 13 && HELM_RELEASE[0] == 'H' && GIT_REPOSITORY[0] == 'G';
  }

  // ---------------------------------------------------------------- readiness

  datatype Health =
    | Reconciled
    | Unreconciled(state: ReadinessState, reason: ReconciliationReason, transitionedAt: Option<Instant>)

  /** `reconciliationHealth`: the first `Ready` condition decides; without one the state is unknown. */
  function HealthOf(conditions: seq<Condition>): Health {
    if conditions == [] then Unreconciled(ReadinessUnknown, OtherReason, None)
    else if conditions[0].typ != "Ready" then HealthOf(conditions[1..])
    else if conditions[0].status == "True" then Reconciled
    else Unreconciled(if conditions[0].status == "False" then ReadinessFalse else ReadinessUnknown,
                      NormalizeReconciliationReason(conditions[0].reason),
                      conditions[0].lastTransition)
  }

  /** Position `i` holds the first `Ready` condition. */
  ghost predicate FirstReady(conditions: seq<Condition>, i: int) {
    && 0 <= i < |conditions| && conditions[i].typ == "Ready"
    && forall j | 0 <= j < i :: conditions[j].typ != "Ready"
  }

  /**
   An object is healthy iff its first `Ready` condition is `True`, whatever later ones say, and it is
   reported `false` iff that condition is `False`; reason and transition time are that condition's.
   */
  lemma {:induction false} HealthIsFirstReady(conditions: seq<Condition>)
    ensures HealthOf(conditions).Reconciled? <==>
              exists i :: FirstReady(conditions, i) && conditions[i].status == "True"
    ensures forall i | FirstReady(conditions, i) && conditions[i].status != "True" ::
              && HealthOf(conditions).Unreconciled?
              && (HealthOf(conditions).state == ReadinessFalse <==> conditions[i].status == "False")
              && HealthOf(conditions).reason == NormalizeReconciliationReason(conditions[i].reason)
              && HealthOf(conditions).transitionedAt == conditions[i].lastTransition
    ensures (forall i :: !FirstReady(conditions, i)) ==>
              HealthOf(conditions) == Unreconciled(ReadinessUnknown, OtherReason, None)
  {
    if conditions != [] {
      if conditions[0].typ == "Ready" {
        assert FirstReady(conditions, 0);
      } else {
        HealthIsFirstReady(conditions[1..]);
        forall i ensures FirstReady(conditions, i) <==> FirstReady(conditions[1..], i - 1) {
          FirstReadyShifts(conditions, i);
        }
        if HealthOf(conditions).Reconciled? {
          var i :| FirstReady(conditions[1..], i) && conditions[1..][i].status == "True";
          assert FirstReady(conditions, i + 1);
        }
        if forall i :: !FirstReady(conditions, i) {
          forall i ensures !FirstReady(conditions[1..], i) {
            assert !FirstReady(conditions, i + 1);
          }
        }
      }
    }
  }

  lemma FirstReadyShifts(conditions: seq<Condition>, i: int)
    requires conditions != [] && conditions[0].typ != "Ready"
    ensures FirstReady(conditions, i) <==> FirstReady(conditions[1..], i - 1)
  {
    if FirstReady(conditions[1..], i - 1) {
      forall j | 0 <= j < i ensures conditions[j].typ != "Ready" {
        if j > 0 { assert conditions[j] == conditions[1..][j - 1]; }
      }
    }
  }

  // --------------------------------------------------------- what is reported

  function Report(o: Observed<Object>): Reconciliation {
    match HealthOf(o.item.conditions)
    case Reconciled => Reconciliation(o.scope, o.kind, o.item.name, ReadinessUnknown, OtherReason, None)
    case Unreconciled(state, reason, at) => Reconciliation(o.scope, o.kind, o.item.name, state, reason, at)
  }

  function FluxTool(): Tool<Object, Reconciliation> {
    Tool((o: Observed<Object>) => !HealthOf(o.item.conditions).Reconciled?,
         (item: Object) => item.name,
         (o: Observed<Object>) => Report(o),
         (r: Reconciliation) => CompositeKey(r.scope, r.kind, r.name))
  }

  lemma FluxToolIsCoherent()
    ensures Coherent(FluxTool()) && PlainKinds(KINDS)
  {
    forall k | k in KINDS ensures Lacks(k, NUL) {
      assert FluxResourceKind(k);
    }
  }

  /** The list before the size check. */
  ghost predicate ReconciliationsListed(
    targetID: string, replies: Request -> Reply<Object>, scopes: seq<Scope>, kinds: seq<string>,
    limit: nat, now: Instant, out: ReconciliationsOutput)
  {
    && out.target == targetID && out.observedAt == now
    && Lists(FluxTool(), replies, scopes, kinds, limit, out.reconciliations, out.truncated)
  }

  /**
   The list result over the selected scopes: the first failing request; or the listing; or, when an
   instant of the listing cannot be encoded, an encoding error in its place.
   */
  ghost predicate ReconciliationsResult(
    targetID: string, replies: Request -> Reply<Object>, scopes: seq<Scope>, kinds: seq<string>,
    limit: nat, now: Instant, r: Result<ReconciliationsOutput>)
  {
    var failure := FirstFailure(replies, Requests(scopes, kinds));
    if failure.Some? then r == Err(failure.value)
    else exists out ::
           && ReconciliationsListed(targetID, replies, scopes, kinds, limit, now, out)
           && r == if ReconciliationsTimes(out) then Ok(out) else Err(ENCODE_ERROR)
  }

  // -------------------------------------------------------------------- client

  class Client {
    const targetID: string
    const scopes: map<string, string>

    ghost predicate Valid() {
      Identifier(targetID) && ValidTable(scopes)
    }

    constructor Make(targetID: string, scopes: map<string, string>)
      ensures this.targetID == targetID && this.scopes == scopes
    {
      this.targetID, this.scopes := targetID, scopes;
    }

    /** `NewClient`; whether the shared HTTP settings are accepted is decided elsewhere. */
    static method NewClient(targetID: string, configured: seq<Scope>, httpAccepted: bool) returns (r: Result<Client>)
      ensures r.Ok? <==> Identifier(targetID) && Accepted(configured) && httpAccepted
      ensures r.Ok? ==> r.value.Valid() && r.value.targetID == targetID && Tabulates(r.value.scopes, configured)
    {
      var invalid := ValidateIdentifier("target", targetID);
      if invalid.Some? {
        return Err(invalid.value);
      }
      var table := BuildTable(configured);
      if table.Err? {
        return Err(table.error);
      }
      if !httpAccepted {
        return Err(Plain("source settings are invalid"));
      }
      TablesAreValid(table.value, configured);
      var client := new Client.Make(targetID, table.value);
      return Ok(client);
    }

    /** Every outcome of the list tool. */
    ghost predicate Answers(
      source: Source, input: ScopedListInput, now: Instant, r: Result<ReconciliationsOutput>)
    {
      var n := NormalizeReconciliationsInput(input);
      if n.Err? then r == Err(n.error)
      else if n.value.target != targetID then r == Err(Plain("target is not configured"))
      else if n.value.scope != "" && n.value.scope !in scopes then r == Err(Value(FluxUnknownScope))
      else forall selected | Selects(scopes, n.value.scope, selected) ::
             ReconciliationsResult(targetID, Replies(source), selected, KINDS, n.value.limit, now, r)
    }

    /** `ListUnhealthyReconciliations`, given what the source answers to each path. */
    method ListUnhealthyReconciliations(
      source: Source, input: ScopedListInput, now: Instant, format: Instant -> string)
      returns (r: Result<ReconciliationsOutput>)
      requires Valid() && Rfc3339(format)
      ensures Answers(source, input, now, r)
    {
      hide ReconciliationsResult;
      var normalized := NormalizeReconciliationsInput(input);
      if normalized.Err? {
        return Err(normalized.error);
      }
      var limit: nat := normalized.value.limit;
      if normalized.value.target != targetID {
        return Err(Plain("target is not configured"));
      }
      var selection := SelectScopes(scopes, normalized.value.scope, FluxUnknownScope);
      if selection.Err? {
        return Err(selection.error);
      }
      var selected := selection.value;
      forall other | Selects(scopes, normalized.value.scope, other) ensures other == selected {
        SelectionIsUnique(scopes, normalized.value.scope, other, selected);
      }
      SelectedScopesAscend(scopes, normalized.value.scope, selected);
      FluxKindsArePlain();
      r := ObserveReconciliations(targetID, Replies(source), selected, KINDS, limit, now, format);
    }
  }

  lemma FluxKindsArePlain()
    ensures forall k | k in KINDS :: FluxResourceKind(k)
  {
  }

  // ------------------------------------------------------------------- loops

  /** The loops of the list tool. */
  method GatherReconciliations(replies: Request -> Reply<Object>, scopes: seq<Scope>, kinds: seq<string>)
    returns (failure: Option<Error>, reports: seq<Reconciliation>, truncated: bool)
    requires |kinds| == 3
    ensures failure == FirstFailure(replies, Requests(scopes, kinds))
    ensures failure.None? ==> Gathered(FluxTool(), replies, Requests(scopes, kinds), reports, truncated)
  {
    hide Items, Candidates, Requests, Incomplete, FluxTool;
    ghost var tool := FluxTool();
    ghost var done: seq<Request> := [];
    reports, truncated := [], false;
    NothingGathered(tool, replies);
    ThreePerScope(scopes, kinds);
    for i := 0 to |scopes|
      invariant done == Requests(scopes, kinds)[..3 * i]
      invariant Gathered(tool, replies, done, reports, truncated)
    {
      for j := 0 to 3
        invariant done == Requests(scopes, kinds)[..3 * i + j]
        invariant Gathered(tool, replies, done, reports, truncated)
      {
        var request := Request(scopes[i], kinds[j]);
        var reply := replies(request);
        var more, dropped := ReportItems(request, ReplyItems(reply));
        StepThroughThree(scopes, kinds, i, j, done);
        GatheredNext(tool, replies, done, request, reports, truncated, more, dropped);
        done := done + [request];
        if reply.Failed? {
          FailureEndsObservation(replies, Requests(scopes, kinds), 3 * i + j + 1);
          failure := Some(reply.error);
          return;
        }
        reports, truncated := reports + more, truncated || reply.continueToken != "" || dropped;
      }
    }
    assert done == Requests(scopes, kinds);
    failure := None;
  }

  /** The innermost loop: the reports of one list, and whether a misnamed object was dropped. */
  method ReportItems(request: Request, items: seq<Object>) returns (reports: seq<Reconciliation>, dropped: bool)
    ensures reports == Candidates(FluxTool(), Tag(request, items))
    ensures dropped <==> AnyMisnamed(FluxTool(), Tag(request, items))
  {
    reports, dropped := [], false;
    ghost var tool := FluxTool();
    ghost var tagged := Tag(request, items);
    for k := 0 to |items|
      invariant reports == Candidates(tool, tagged[..k])
      invariant dropped <==> AnyMisnamed(tool, tagged[..k])
    {
      hide HealthOf, ValidObjectName;
      var item := items[k];
      assert tagged[..k + 1] == tagged[..k] + [tagged[k]];
      assert tagged[..k + 1][..k] == tagged[..k];
      assert tagged[k] == Observed(request.scope.id, request.kind, item);
      var health := HealthOf(item.conditions);
      assert Misnamed(tool, tagged[k]) <==> !health.Reconciled? && !ValidObjectName(item.name);
      if !health.Reconciled? {
        if !ValidObjectName(item.name) {
          dropped := true;
        } else {
          reports := reports + [Reconciliation(
            request.scope.id, request.kind, item.name, health.state, health.reason, health.transitionedAt)];
        }
      }
    }
    assert tagged[..|items|] == tagged;
  }

  /** The list tool over the selected scopes: gather, sort, cut, check the size. */
  method ObserveReconciliations(
    targetID: string, replies: Request -> Reply<Object>, scopes: seq<Scope>, kinds: seq<string>,
    limit: nat, now: Instant, format: Instant -> string)
    returns (r: Result<ReconciliationsOutput>)
    requires Identifier(targetID) && limit <= MAX_LIST_LIMIT && Rfc3339(format) && Ascending(scopes)
    requires |kinds| == 3 && forall k | k in kinds :: FluxResourceKind(k)
    ensures ReconciliationsResult(targetID, replies, scopes, kinds, limit, now, r)
  {
    hide Items, Candidates, Requests, Incomplete, FluxTool;
    var failure, reports, truncated := GatherReconciliations(replies, scopes, kinds);
    if failure.Some? {
      return Err(failure.value);
    }
    ByKeyIsTotalPreorder(FluxTool().key);
    var sorted := SortSlice(reports, ByKey(FluxTool().key));
    SortingKeepsMembers(ByKey(FluxTool().key), reports, sorted);
    ghost var whole := sorted;
    if |sorted| > limit {
      sorted := sorted[..limit];
      truncated := true;
    }
    assert IsSorting(ByKey(FluxTool().key), reports, whole) && sorted == Take(whole, limit);
    var result := ReconciliationsOutput(targetID, now, sorted, truncated);
    assert ReconciliationsListed(targetID, replies, scopes, kinds, limit, now, result);
    ListedReconciliationsAreWellFormed(replies, scopes, kinds, limit, result);
    ReconciliationsNeverTooLarge(result, format);
    var oversized := CheckResultSize(MarshalReconciliations(result, format));
    if oversized.Some? {
      return Err(oversized.value);
    }
    return Ok(result);
  }

  lemma ListedReconciliationsAreWellFormed(
    replies: Request -> Reply<Object>, scopes: seq<Scope>, kinds: seq<string>, limit: nat,
    out: ReconciliationsOutput)
    requires Identifier(out.target) && limit <= MAX_LIST_LIMIT && Ascending(scopes)
    requires forall k | k in kinds :: FluxResourceKind(k)
    requires Lists(FluxTool(), replies, scopes, kinds, limit, out.reconciliations, out.truncated)
    ensures ReconciliationsShape(out)
  {
    hide Items, Requests, HealthOf;
    var tool, requests := FluxTool(), Requests(scopes, kinds);
    TopKeepsSome(ByKey(tool.key), Candidates(tool, Items(replies, requests)), limit, out.reconciliations);
    RequestsMembers(scopes, kinds);
    forall w | w in out.reconciliations ensures ReconciliationShape(w) {
      var r, o := CandidateOrigin(tool, replies, requests, w);
      assert Identifier(r.scope.id) && FluxResourceKind(r.kind);
    }
  }

  // -------------------------------------------------------------- main results

  /** The Flux list distributes over the scopes of a client in the same way. */
  lemma ReconciliationsDistributeOverScopes(
    targetID: string, table: map<string, string>, scopes: seq<Scope>, replies: Request -> Reply<Object>,
    limit: nat, now: Instant, all: ReconciliationsOutput, each: seq<ReconciliationsOutput>)
    requires ValidTable(table) && Enumerates(table, scopes)
    requires ReconciliationsListed(targetID, replies, scopes, KINDS, limit, now, all)
    requires |each| == |scopes|
    requires forall i | 0 <= i < |scopes| ::
               ReconciliationsListed(targetID, replies, [scopes[i]], KINDS, limit, now, each[i])
    ensures UniqueNames(FluxTool(), replies, Requests(scopes, KINDS)) ==>
              all.reconciliations == Take(Flatten(EachReconciliations(each)), limit)
    ensures all.truncated <==>
              (exists i | 0 <= i < |each| :: each[i].truncated) || |Flatten(EachReconciliations(each))| > limit
  {
    hide Lists, Requests, Flatten, UniqueNames, FluxTool, Coherent;
    hide PlainKinds, Ascending, Tied, ValidTable, Enumerates, Take;
    FluxToolIsCoherent();
    SelectedScopesAscend(table, "", scopes);
    var flags := seq(|each|, i requires 0 <= i < |each| => each[i].truncated);
    ListingDistributesOverScopes(FluxTool(), replies, scopes, KINDS, limit, all.reconciliations, all.truncated,
                                 EachReconciliations(each), flags);
    assert forall i | 0 <= i < |each| :: flags[i] == each[i].truncated;
  }

  function EachReconciliations(each: seq<ReconciliationsOutput>): (lists: seq<seq<Reconciliation>>)
    ensures |lists| == |each| && forall i | 0 <= i < |each| :: lists[i] == each[i].reconciliations
  {
    seq(|each|, i requires 0 <= i < |each| => each[i].reconciliations)
  }

  // ------------------------------------------------------------ encoding errors

  function Order(): (Reconciliation, Reconciliation) -> int {
    ByKey(FluxTool().key)
  }

  function Reports(replies: Request -> Reply<Object>, requests: seq<Request>): seq<Reconciliation> {
    Candidates(FluxTool(), Items(replies, requests))
  }

  /** How many of the reports come strictly before that of `o`. */
  function Ahead(replies: Request -> Reply<Object>, requests: seq<Request>, o: Observed<Object>): nat {
    Preceding(Order(), Reports(replies, requests), Report(o))
  }

  /** The transition time a report carries can be encoded. */
  predicate TransitionEncodable(o: Observed<Object>) {
    MaybeEncodable(Report(o).transitionedAt)
  }

  /** The clock can be encoded, and so can the transition of every reportable object that fewer than `limit` precede. */
  ghost predicate LeadersEncodable(
    replies: Request -> Reply<Object>, requests: seq<Request>, limit: nat, now: Instant)
  {
    && Encodable(now)
    && forall o | o in Items(replies, requests) && Reportable(FluxTool(), o) && Ahead(replies, requests, o) < limit ::
         TransitionEncodable(o)
  }

  lemma ReportsAreOfObjects(replies: Request -> Reply<Object>, requests: seq<Request>)
    ensures forall x | x in Reports(replies, requests) ::
              exists o | o in Items(replies, requests) && Reportable(FluxTool(), o) :: x == Report(o)
    ensures forall o | o in Items(replies, requests) && Reportable(FluxTool(), o) ::
              Report(o) in Reports(replies, requests)
  {
    hide Items, HealthOf;
    CandidatesMembers(FluxTool(), Items(replies, requests));
  }

  /** The same, said of the reports. */
  lemma LeadersAreReports(replies: Request -> Reply<Object>, requests: seq<Request>, limit: nat, now: Instant)
    ensures LeadersEncodable(replies, requests, limit, now)
       <==> && Encodable(now)
            && var reports := Reports(replies, requests);
               forall x | x in reports && Preceding(Order(), reports, x) < limit :: MaybeEncodable(x.transitionedAt)
  {
    hide Items, Reports, Reportable, Report, Order, Preceding;
    ReportsAreOfObjects(replies, requests);
  }

  /**
   Exactly when the observation is sure to succeed, whatever the unstable sort makes of ties: when the clock
   and the transition time of every reportable object that fewer than `limit` others strictly precede lie in
   the years 0 to 9999. Otherwise some sort fails the whole list.
   */
  lemma ReconciliationsSurelySucceedIffLeadersEncodable(
    targetID: string, replies: Request -> Reply<Object>, scopes: seq<Scope>, kinds: seq<string>,
    limit: nat, now: Instant)
    requires FirstFailure(replies, Requests(scopes, kinds)).None?
    ensures (forall r | ReconciliationsResult(targetID, replies, scopes, kinds, limit, now, r) :: r.Ok?)
       <==> LeadersEncodable(replies, Requests(scopes, kinds), limit, now)
  {
    hide Items, Requests, Reports, LeadersEncodable, Preceding, IsTop, FluxTool;
    var requests := Requests(scopes, kinds);
    var items := Reports(replies, requests);
    ByKeyIsTotalPreorder(FluxTool().key);
    LeadersAreReports(replies, requests, limit, now);
    if LeadersEncodable(replies, requests, limit, now) {
      forall r | ReconciliationsResult(targetID, replies, scopes, kinds, limit, now, r) ensures r.Ok? {
        var out := ListedOf(targetID, replies, scopes, kinds, limit, now, r);
        TopKeepsSome(Order(), items, limit, out.reconciliations);
        forall k | k in out.reconciliations ensures MaybeEncodable(k.transitionedAt) {
          KeepableIffFewPrecede(Order(), items, limit, k);
        }
      }
    } else {
      var kept := BadTop(items, limit, now);
      var out := ReconciliationsOutput(
        targetID, now, kept, Incomplete(FluxTool(), replies, requests) || |items| > limit);
      ListingOfTop(targetID, replies, scopes, kinds, limit, now, out);
      assert ReconciliationsResult(targetID, replies, scopes, kinds, limit, now, Err(ENCODE_ERROR));
    }
  }

  /** What was listed, whether or not it could be encoded. */
  lemma ListedOf(
    targetID: string, replies: Request -> Reply<Object>, scopes: seq<Scope>, kinds: seq<string>,
    limit: nat, now: Instant, r: Result<ReconciliationsOutput>) returns (out: ReconciliationsOutput)
    requires FirstFailure(replies, Requests(scopes, kinds)).None?
    requires ReconciliationsResult(targetID, replies, scopes, kinds, limit, now, r)
    ensures IsTop(Order(), Reports(replies, Requests(scopes, kinds)), limit, out.reconciliations)
    ensures out.observedAt == now
    ensures r == if ReconciliationsTimes(out) then Ok(out) else Err(ENCODE_ERROR)
  {
    hide Items, Requests, Candidates, IsTop, FluxTool;
    out :| && ReconciliationsListed(targetID, replies, scopes, kinds, limit, now, out)
           && r == if ReconciliationsTimes(out) then Ok(out) else Err(ENCODE_ERROR);
  }

  lemma ListingOfTop(
    targetID: string, replies: Request -> Reply<Object>, scopes: seq<Scope>, kinds: seq<string>,
    limit: nat, now: Instant, out: ReconciliationsOutput)
    requires FirstFailure(replies, Requests(scopes, kinds)).None?
    requires out.target == targetID && out.observedAt == now
    requires IsTop(Order(), Reports(replies, Requests(scopes, kinds)), limit, out.reconciliations)
    requires out.truncated <==> || Incomplete(FluxTool(), replies, Requests(scopes, kinds))
                                || |Reports(replies, Requests(scopes, kinds))| > limit
    ensures ReconciliationsListed(targetID, replies, scopes, kinds, limit, now, out)
  {
    hide Items, Requests, Candidates, IsTop, FluxTool;
  }

  /** A choice of some sort that cannot be encoded. */
  lemma BadTop(items: seq<Reconciliation>, limit: nat, now: Instant) returns (kept: seq<Reconciliation>)
    requires TotalPreorder(Order())
    requires !Encodable(now) ||
             exists x | x in items && Preceding(Order(), items, x) < limit :: !MaybeEncodable(x.transitionedAt)
    ensures IsTop(Order(), items, limit, kept)
    ensures !Encodable(now) || exists k | k in kept :: !MaybeEncodable(k.transitionedAt)
  {
    hide Preceding, Order;
    if !Encodable(now) {
      var sorted := SortingExists(Order(), items);
      kept := Take(sorted, limit);
      assert IsTop(Order(), items, limit, kept);
    } else {
      var x :| x in items && Preceding(Order(), items, x) < limit && !MaybeEncodable(x.transitionedAt);
      KeepableIffFewPrecede(Order(), items, limit, x);
      kept :| IsTop(Order(), items, limit, kept) && x in kept;
    }
  }

  /** With unique names, or when nothing is cut, that condition decides every outcome. */
  lemma ReconciliationsSucceedIffLeadersEncodable(
    targetID: string, replies: Request -> Reply<Object>, scopes: seq<Scope>, kinds: seq<string>,
    limit: nat, now: Instant, r: Result<ReconciliationsOutput>)
    requires Ascending(scopes) && PlainKinds(kinds)
    requires FirstFailure(replies, Requests(scopes, kinds)).None?
    requires ReconciliationsResult(targetID, replies, scopes, kinds, limit, now, r)
    requires || UniqueNames(FluxTool(), replies, Requests(scopes, kinds))
             || |Reports(replies, Requests(scopes, kinds))| <= limit
    ensures r.Ok? <==> LeadersEncodable(replies, Requests(scopes, kinds), limit, now)
    ensures r.Err? ==> r.error == ENCODE_ERROR
  {
    hide Items, Requests, Candidates, LeadersEncodable, Preceding, IsTop, FluxTool, UniqueNames, ReconciliationsResult;
    var requests := Requests(scopes, kinds);
    var items, p := Reports(replies, requests), (x: Reconciliation) => MaybeEncodable(x.transitionedAt);
    var out := ListedOf(targetID, replies, scopes, kinds, limit, now, r);
    ByKeyIsTotalPreorder(FluxTool().key);
    LeadersAreReports(replies, requests, limit, now);
    if |items| <= limit {
      UncutKeepsAll(Order(), items, limit, out.reconciliations);
      forall x | x in items ensures Preceding(Order(), items, x) < limit {
        FewerPrecedeThanAll(Order(), items, x);
      }
    } else {
      FluxToolIsCoherent();
      UniqueNamesAreTieFree(FluxTool(), replies, scopes, kinds);
      KeptAllIffKeepableAll(Order(), items, limit, out.reconciliations, p);
    }
    assert ReconciliationsTimes(out) <==> Encodable(now) && forall k | k in out.reconciliations :: p(k);
  }

  /** A list that is not cut succeeds iff the clock and every reported transition can be encoded. */
  lemma UncutReconciliationsSucceedIffTransitionsEncodable(
    targetID: string, replies: Request -> Reply<Object>, scopes: seq<Scope>, kinds: seq<string>,
    limit: nat, now: Instant, r: Result<ReconciliationsOutput>)
    requires Ascending(scopes) && PlainKinds(kinds)
    requires FirstFailure(replies, Requests(scopes, kinds)).None?
    requires ReconciliationsResult(targetID, replies, scopes, kinds, limit, now, r)
    requires |Reports(replies, Requests(scopes, kinds))| <= limit
    ensures r.Ok? <==> && Encodable(now)
                       && forall o | o in Items(replies, Requests(scopes, kinds)) && Reportable(FluxTool(), o) ::
                            TransitionEncodable(o)
  {
    hide Items, Requests, Reports, Preceding, Order, ReconciliationsResult, Report, Reportable;
    ReconciliationsSucceedIffLeadersEncodable(targetID, replies, scopes, kinds, limit, now, r);
    var requests := Requests(scopes, kinds);
    ReportsAreOfObjects(replies, requests);
    OrderIsTotalPreorder();
    forall o | o in Items(replies, requests) && Reportable(FluxTool(), o) ensures Ahead(replies, requests, o) < limit {
      FewerPrecedeThanAll(Order(), Reports(replies, requests), Report(o));
    }
  }

  lemma OrderIsTotalPreorder()
    ensures TotalPreorder(Order())
  {
    ByKeyIsTotalPreorder(FluxTool().key);
  }

  function LateObject(name: string): Object {
    Object(name, [Condition("Ready", "False", "", Some(LATE))])
  }

  /** A source with one Kustomization in one namespace, not ready since `LATE`, and otherwise empty lists. */
  function LateSource(name: string, scope: Scope): Source {
    (path: string) =>
      Kubernetes.Decoded(if path == RequestPath(Request(scope, KUSTOMIZATION)) then [LateObject(name)] else [], "")
  }

  lemma LateItems(name: string, scope: Scope)
    requires Label(scope.namespace)
    ensures var replies, requests := Replies(LateSource(name, scope)), Requests([scope], KINDS);
            && FirstFailure(replies, requests).None?
            && Items(replies, requests) == [Observed(scope.id, KUSTOMIZATION, LateObject(name))]
  {
    hide RequestPath, Requests, Items, FirstFailure;
    var a, b, c := Request(scope, KUSTOMIZATION), Request(scope, HELM_RELEASE), Request(scope, GIT_REPOSITORY);
    KindsAreDistinct();
    RequestsOfScope(scope);
    assert a.kind == KINDS[0] && b.kind == KINDS[1] && c.kind == KINDS[2];
    PathsAreDistinct(b, a);
    PathsAreDistinct(c, a);
    AnsweredInOrder(Replies(LateSource(name, scope)), a, b, c);
  }

  lemma RequestsOfScope(scope: Scope)
    ensures Requests([scope], KINDS)
         == [Request(scope, KUSTOMIZATION), Request(scope, HELM_RELEASE), Request(scope, GIT_REPOSITORY)]
  {
    assert [scope][..0] == [] && Requests([scope], KINDS) == [] + ScopeRequests(scope, KINDS);
  }

  lemma AnsweredInOrder(replies: Request -> Reply<Object>, a: Request, b: Request, c: Request)
    ensures Items(replies, [a, b, c])
         == Tag(a, ReplyItems(replies(a))) + Tag(b, ReplyItems(replies(b))) + Tag(c, ReplyItems(replies(c)))
    ensures replies(a).Fetched? && replies(b).Fetched? && replies(c).Fetched? ==>
              FirstFailure(replies, [a, b, c]).None?
  {
    assert [a, b, c][..2] == [a, b] && [a, b][..1] == [a] && [a][..0] == [];
    assert Items(replies, [a]) == [] + Tag(a, ReplyItems(replies(a)));
    assert FirstFailure(replies, [a]).None? <==> !replies(a).Failed?;
  }

  lemma LateObjectIsReportable(name: string, scope: string)
    requires ValidObjectName(name)
    ensures var o := Observed(scope, KUSTOMIZATION, LateObject(name));
            Reportable(FluxTool(), o) && !TransitionEncodable(o)
  {
    hide ValidObjectName;
    assert HealthOf(LateObject(name).conditions).Unreconciled?;
  }

  lemma OneCandidate(o: Observed<Object>)
    ensures |Candidates(FluxTool(), [o])| <= 1
  {
    assert [o][..0] == [];
  }

  /** From such a source every client that has the scope gets an error in place of the list, whatever the limit. */
  lemma OneTransitionFailsTheList(
    c: Client, name: string, scope: Scope, input: ScopedListInput, now: Instant, r: Result<ReconciliationsOutput>)
    requires c.Valid() && c.scopes == map[scope.id := scope.namespace] && ValidObjectName(name)
    requires NormalizeReconciliationsInput(input).Ok? && input.target == c.targetID && input.scope in {"", scope.id}
    requires c.Answers(LateSource(name, scope), input, now, r)
    ensures r == Err(ENCODE_ERROR)
  {
    hide Requests, ReconciliationsResult, Compare, ValidObjectName, RequestPath;
    var replies, requests := Replies(LateSource(name, scope)), Requests([scope], KINDS);
    assert scope.id in c.scopes && Selects(c.scopes, input.scope, [scope]);
    SelectedScopesAscend(c.scopes, input.scope, [scope]);
    LateListFails(c.targetID, name, scope, NormalizeReconciliationsInput(input).value.limit, now, r);
  }

  lemma LateListFails(
    targetID: string, name: string, scope: Scope, limit: nat, now: Instant, r: Result<ReconciliationsOutput>)
    requires Identifier(scope.id) && Label(scope.namespace) && ValidObjectName(name) && limit >= 1
    requires ReconciliationsResult(targetID, Replies(LateSource(name, scope)), [scope], KINDS, limit, now, r)
    ensures r == Err(ENCODE_ERROR)
  {
    hide Requests, Items, ReconciliationsResult, Compare, ValidObjectName, LateSource;
    var replies, requests := Replies(LateSource(name, scope)), Requests([scope], KINDS);
    LateItems(name, scope);
    FluxToolIsCoherent();
    LateObjectIsReportable(name, scope.id);
    var o := Observed(scope.id, KUSTOMIZATION, LateObject(name));
    assert o in Items(replies, requests);
    OneCandidate(o);
    UncutReconciliationsSucceedIffTransitionsEncodable(targetID, replies, [scope], KINDS, limit, now, r);
    ReconciliationsSucceedIffLeadersEncodable(targetID, replies, [scope], KINDS, limit, now, r);
  }

  // -------------------------------------------------------------- result size

  /** No request error is about the size of a result; the HTTP client has no such error. */
  ghost predicate RequestErrorsFit(source: Source) {
    forall path | source(path).NotFetched? :: !Is(source(path).error, ResultTooLarge)
  }

  lemma FailuresFit(source: Source, requests: seq<Request>)
    requires RequestErrorsFit(source)
    ensures FirstFailure(Replies(source), requests).Some? ==>
              !Is(FirstFailure(Replies(source), requests).value, ResultTooLarge)
  {
    hide RequestPath;
    FailureIsOfSource(Replies(source), requests);
  }

  /** Whatever the client answers, its result passes the size check and its error is not that of the check. */
  lemma AnswersFit(
    c: Client, source: Source, input: ScopedListInput, now: Instant, format: Instant -> string,
    r: Result<ReconciliationsOutput>)
    requires c.Valid() && Rfc3339(format) && RequestErrorsFit(source)
    requires c.Answers(source, input, now, r)
    ensures Fits(r, (out: ReconciliationsOutput) => MarshalReconciliations(out, format))
  {
    hide Requests, Lists, FirstFailure, RequestErrorsFit, Rfc3339, ReconciliationsTimes, Identifier, Ascending;
    var n := NormalizeReconciliationsInput(input);
    if n.Ok? && n.value.target == c.targetID && (n.value.scope == "" || n.value.scope in c.scopes) {
      var selected := SelectionExists(c.scopes, n.value.scope);
      SelectedScopesAscend(c.scopes, n.value.scope, selected);
      FailuresFit(source, Requests(selected, KINDS));
      if r.Ok? {
        FluxKindsArePlain();
        ListedReconciliationsAreWellFormed(Replies(source), selected, KINDS, n.value.limit, r.value);
        ReconciliationsNeverTooLarge(r.value, format);
      }
    }
  }
}
