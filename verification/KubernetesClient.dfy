/**
 The Kubernetes client: configuration, the two observations as the adapter computes them, and what
 the two results say about each other.
 */
module KubernetesClient {
  import opened Text
  import opened Errors
  import opened Contracts
  import opened Policy
  import opened Encoding
  import opened Sorting
  import opened TopList
  import opened Fanout
  import opened Scopes
  import opened Kubernetes

  /** The private source settings; whether the base URL is an HTTPS origin is decided elsewhere. */
  datatype Config = Config(targetID: string, httpsOrigin: bool, scopes: seq<Scope>, requestTimeout: int)

  const MILLISECOND := 1_000_000
  const DEFAULT_REQUEST_TIMEOUT := 5_000 * MILLISECOND
  const MAX_REQUEST_TIMEOUT := 30_000 * MILLISECOND

  ghost predicate ConfigAccepted(config: Config) {
    && Identifier(config.targetID) && config.httpsOrigin && Accepted(config.scopes)
    && (config.requestTimeout == 0 || MILLISECOND <= config.requestTimeout <= MAX_REQUEST_TIMEOUT)
  }

  function Timeout(config: Config): int {
    if config.requestTimeout == 0 then DEFAULT_REQUEST_TIMEOUT else config.requestTimeout
  }

  // --------------------------------------------------------- what is reported

  /** One unhealthy controller as the tool reports it. */
  function Report(o: Observed<Controller>): WorkloadHealth {
    WorkloadHealth(o.scope, o.kind, o.item.name, ReadyCount(o.item, o.kind), Desired(o.item, o.kind),
                   ReasonsOf(o.item.conditions))
  }

  function WorkloadTool(): Tool<Controller, WorkloadHealth> {
    Tool((o: Observed<Controller>) => Unready(o.item, o.kind),
         (c: Controller) => c.name,
         (o: Observed<Controller>) => Report(o),
         (w: WorkloadHealth) => CompositeKey(w.scope, w.kind, w.name))
  }

  lemma WorkloadToolIsCoherent()
    ensures Coherent(WorkloadTool()) && PlainKinds(KINDS)
  {
    forall k | k in KINDS ensures Lacks(k, NUL) {
      assert k == DEPLOYMENT || k == STATEFUL_SET || k == DAEMON_SET;
    }
  }

  /** `listControllers`: request errors are wrapped with the resource, malformed text is not. */
  function ListControllers(source: Source, r: Request): Reply<Controller> {
    match source.controllers(RequestPath(r))
    case Decoded(items, token) => Fetched(items, token)
    case Malformed => Failed(Value(KubernetesInvalidResponse))
    case NotFetched(error) => Failed(Wrapped("observe " + ResourceName(r.kind), error))
  }

  function Replies(source: Source): Request -> Reply<Controller> {
    (r: Request) => ListControllers(source, r)
  }

  const MAX_SOURCE_RESPONSE_BYTES := 2_097_152

  /** Every list fits a response body, of which each item takes at least one byte. */
  ghost predicate Bounded(replies: Request -> Reply<Controller>) {
    forall r :: |ReplyItems(replies(r))| <= MAX_SOURCE_RESPONSE_BYTES
  }

  ghost predicate BoundedSource(source: Source) {
    && Bounded(Replies(source))
    && (source.nodes.Decoded? ==> |source.nodes.items| <= MAX_SOURCE_RESPONSE_BYTES)
  }

  // ------------------------------------------------------------ specifications

  /** The successful list result. */
  ghost predicate WorkloadsListed(
    targetID: string, replies: Request -> Reply<Controller>, scopes: seq<Scope>, kinds: seq<string>,
    limit: nat, now: Instant,
    out: WorkloadsOutput)
  {
    && out.target == targetID && out.observedAt == now
    && Lists(WorkloadTool(), replies, scopes, kinds, limit, out.workloads, out.truncated)
  }

  /** The list result over the selected scopes: the first failing request, or the listing. */
  ghost predicate WorkloadsResult(
    targetID: string, replies: Request -> Reply<Controller>, scopes: seq<Scope>, kinds: seq<string>,
    limit: nat, now: Instant,
    r: Result<WorkloadsOutput>)
  {
    var failure := FirstFailure(replies, Requests(scopes, kinds));
    if failure.Some? then r == Err(failure.value)
    else if !Encodable(now) then r == Err(ENCODE_ERROR)
    else r.Ok? && WorkloadsListed(targetID, replies, scopes, kinds, limit, now, r.value)
  }

  function Warnings(unreadyNodes: int, unhealthy: int, partial: bool): seq<HealthWarning> {
    (if unreadyNodes != 0 then [HealthWarning(NodesNotReady, unreadyNodes)] else [])
    + (if unhealthy > 0 then [HealthWarning(WorkloadsNotReady, unhealthy)] else [])
    + (if partial then [HealthWarning(PartialObservation, 1)] else [])
  }

  /** The result that reports the given numbers. */
  ghost predicate Summarizes(
    targetID: string, now: Instant, nodes: int, nodesReady: int, partial: bool, total: int, unhealthy: int,
    out: ClusterHealthOutput)
  {
    && out.target == targetID && out.observedAt == now
    && out.nodesTotal == nodes && out.nodesReady == nodesReady
    && out.workloadsTotal == total && out.workloadsUnhealthy == unhealthy
    && out.workloadsReady == total - unhealthy
    && out.partial == partial
    && out.status == (if partial then StatusUnknown
                      else if nodesReady == nodes && unhealthy == 0 then Healthy
                      else Degraded)
    && out.warnings == Warnings(nodes - nodesReady, unhealthy, partial)
  }

  /** The totals over the nodes and everything else the source listed. */
  ghost predicate Totals(
    targetID: string, nodes: seq<Node>, nodesCut: bool, replies: Request -> Reply<Controller>,
    scopes: seq<Scope>, kinds: seq<string>, now: Instant, out: ClusterHealthOutput)
  {
    var items := Items(replies, Requests(scopes, kinds));
    Summarizes(targetID, now, |nodes|, CountReadyNodes(nodes),
               nodesCut || Continued(replies, Requests(scopes, kinds)),
               |items|, Count(WorkloadTool().unhealthy, items), out)
  }

  ghost predicate TotalsResult(
    targetID: string, nodes: Body<Node>, replies: Request -> Reply<Controller>, scopes: seq<Scope>,
    kinds: seq<string>, now: Instant, r: Result<ClusterHealthOutput>)
  {
    match nodes
    case NotFetched(error) => r == Err(Wrapped("observe nodes", error))
    case Malformed => r == Err(Value(KubernetesInvalidResponse))
    case Decoded(items, token) =>
      var failure := FirstFailure(replies, Requests(scopes, kinds));
      if failure.Some? then r == Err(failure.value)
      else if !Encodable(now) then r == Err(ENCODE_ERROR)
      else r.Ok? && Totals(targetID, items, token != "", replies, scopes, kinds, now, r.value)
  }

  // -------------------------------------------------------------------- client

  class Client {
    const targetID: string
    const scopes: map<string, string>
    const requestTimeout: int

    ghost predicate Valid() {
      Identifier(targetID) && ValidTable(scopes)
    }

    constructor Make(targetID: string, scopes: map<string, string>, requestTimeout: int)
      ensures this.targetID == targetID && this.scopes == scopes && this.requestTimeout == requestTimeout
    {
      this.targetID, this.scopes, this.requestTimeout := targetID, scopes, requestTimeout;
    }

    static method NewClient(config: Config) returns (r: Result<Client>)
      ensures r.Ok? <==> ConfigAccepted(config)
      ensures r.Ok? ==> r.value.Valid() && r.value.targetID == config.targetID
      ensures r.Ok? ==> Tabulates(r.value.scopes, config.scopes)
      ensures r.Ok? ==> r.value.requestTimeout == Timeout(config)
      ensures r.Ok? && config.requestTimeout == 0 ==> r.value.requestTimeout == 5_000_000_000
    {
      var invalid := ValidateIdentifier("target", config.targetID);
      if invalid.Some? {
        return Err(invalid.value);
      }
      if !config.httpsOrigin {
        return Err(Plain("base URL must be an HTTPS origin"));
      }
      var table := BuildTable(config.scopes);
      if table.Err? {
        return Err(table.error);
      }
      TablesAreValid(table.value, config.scopes);
      var timeout := config.requestTimeout;
      if timeout == 0 {
        timeout := DEFAULT_REQUEST_TIMEOUT;
      }
      if timeout < MILLISECOND || timeout > MAX_REQUEST_TIMEOUT {
        return Err(Plain("request timeout must be from 1ms to 30s"));
      }
      var client := new Client.Make(config.targetID, table.value, timeout);
      return Ok(client);
    }

    /** Every outcome of the list tool. */
    ghost predicate AnswersList(source: Source, input: ScopedListInput, now: Instant, r: Result<WorkloadsOutput>) {
      var n := NormalizeWorkloadsInput(input);
      if n.Err? then r == Err(n.error)
      else if n.value.target != targetID then r == Err(Plain("target is not configured"))
      else if n.value.scope != "" && n.value.scope !in scopes then r == Err(Value(KubernetesUnknownScope))
      else forall selected | Selects(scopes, n.value.scope, selected) ::
             WorkloadsResult(targetID, Replies(source), selected, KINDS, n.value.limit, now, r)
    }

    /** `ListUnhealthyWorkloads`, given what the source answers to each path. */
    method ListUnhealthyWorkloads(
      source: Source, input: ScopedListInput, now: Instant, format: Instant -> string)
      returns (r: Result<WorkloadsOutput>)
      requires Valid() && Rfc3339(format)
      ensures AnswersList(source, input, now, r)
    {
      var normalized := NormalizeWorkloadsInput(input);
      if normalized.Err? {
        return Err(normalized.error);
      }
      var limit: nat := normalized.value.limit;
      if normalized.value.target != targetID {
        return Err(Plain("target is not configured"));
      }
      var selection := SelectScopes(scopes, normalized.value.scope, KubernetesUnknownScope);
      if selection.Err? {
        return Err(selection.error);
      }
      var selected := selection.value;
      forall other | Selects(scopes, normalized.value.scope, other) ensures other == selected {
        SelectionIsUnique(scopes, normalized.value.scope, other, selected);
      }
      SelectedScopesAscend(scopes, normalized.value.scope, selected);
      ControllerKindsArePlain();
      r := ObserveWorkloads(targetID, Replies(source), selected, KINDS, limit, now, format);
    }

    /** Every outcome of the totals tool. */
    ghost predicate AnswersTotals(source: Source, now: Instant, r: Result<ClusterHealthOutput>) {
      forall all | Enumerates(scopes, all) ::
        TotalsResult(targetID, source.nodes, Replies(source), all, KINDS, now, r)
    }

    /** `ClusterHealth`, given what the source answers to each path. */
    method ClusterHealth(source: Source, now: Instant, format: Instant -> string)
      returns (r: Result<ClusterHealthOutput>)
      requires Valid() && Rfc3339(format)
      requires BoundedSource(source)
      ensures AnswersTotals(source, now, r)
    {
      if source.nodes.NotFetched? {
        return Err(Wrapped("observe nodes", source.nodes.error));
      }
      if source.nodes.Malformed? {
        return Err(Value(KubernetesInvalidResponse));
      }
      var selection := SelectScopes(scopes, "", KubernetesUnknownScope);
      var all := selection.value;
      forall other | Enumerates(scopes, other) ensures other == all {
        SelectionIsUnique(scopes, "", other, all);
      }
      EnumerationLength(scopes, all);
      r := ObserveTotals(targetID, source.nodes.items, source.nodes.continueToken != "", Replies(source),
                         all, KINDS, now, format);
    }
  }

  /** The totals, once the nodes are listed. */
  method ObserveTotals(
    targetID: string, nodes: seq<Node>, nodesCut: bool, replies: Request -> Reply<Controller>, scopes: seq<Scope>,
    kinds: seq<string>, now: Instant, format: Instant -> string)
    returns (r: Result<ClusterHealthOutput>)
    requires Identifier(targetID) && Rfc3339(format) && Bounded(replies)
    requires |nodes| <= MAX_SOURCE_RESPONSE_BYTES && |scopes| <= MAX_TARGETS && |kinds| == 3
    ensures var failure := FirstFailure(replies, Requests(scopes, kinds));
            if failure.Some? then r == Err(failure.value)
            else if !Encodable(now) then r == Err(ENCODE_ERROR)
            else r.Ok? && Totals(targetID, nodes, nodesCut, replies, scopes, kinds, now, r.value)
  {
    hide Items, Requests, FirstFailure, Positions, Warnings;
    var nodesReady := CountNodes(nodes);
    var failure, partial, total, ready, unhealthy := CountWorkloads(replies, scopes, kinds);
    if failure.Some? {
      return Err(failure.value);
    }
    ThreePerScope(scopes, kinds);
    ItemsAreBounded(replies, Requests(scopes, kinds));
    var result := Summarize(targetID, now, |nodes|, nodesReady, nodesCut || partial, total, ready, unhealthy);
    SummaryIsWellFormed(targetID, now, |nodes|, nodesReady, nodesCut || partial, total, unhealthy, result);
    ClusterHealthNeverTooLarge(result, format);
    var oversized := CheckResultSize(MarshalClusterHealth(result, format));
    if oversized.Some? {
      return Err(oversized.value);
    }
    return Ok(result);
  }

  /** Status and warnings from the numbers. */
  method Summarize(
    targetID: string, now: Instant, nodes: nat, nodesReady: nat, partial: bool, total: nat, ready: nat, unhealthy: nat)
    returns (out: ClusterHealthOutput)
    requires nodesReady <= nodes && total == ready + unhealthy
    ensures Summarizes(targetID, now, nodes, nodesReady, partial, total, unhealthy, out)
  {
    var status := Healthy;
    var warnings: seq<HealthWarning> := [];
    if nodesReady != nodes {
      status := Degraded;
      warnings := warnings + [HealthWarning(NodesNotReady, nodes - nodesReady)];
    }
    if unhealthy > 0 {
      status := Degraded;
      warnings := warnings + [HealthWarning(WorkloadsNotReady, unhealthy)];
    }
    if partial {
      status := StatusUnknown;
      warnings := warnings + [HealthWarning(PartialObservation, 1)];
    }
    out := ClusterHealthOutput(
      targetID, now, status, nodes, nodesReady, total, ready, unhealthy, warnings, partial);
  }

  lemma SummaryIsWellFormed(
    targetID: string, now: Instant, nodes: nat, nodesReady: nat, partial: bool, total: nat, unhealthy: nat,
    out: ClusterHealthOutput)
    requires Identifier(targetID) && nodesReady <= nodes && unhealthy <= total
    requires CountFits(nodes) && CountFits(total)
    requires Summarizes(targetID, now, nodes, nodesReady, partial, total, unhealthy, out)
    ensures ClusterHealthShape(out)
  {
  }

  method CountNodes(nodes: seq<Node>) returns (ready: nat)
    ensures ready == CountReadyNodes(nodes) == |ReadyPositions(nodes)|
  {
    ready := 0;
    for i := 0 to |nodes|
      invariant ready == CountReadyNodes(nodes[..i])
    {
      assert nodes[..i + 1][..i] == nodes[..i];
      if NodeReady(nodes[i].conditions) {
        ready := ready + 1;
      }
    }
    assert nodes[..|nodes|] == nodes;
    ReadyNodesAreCounted(nodes);
  }

  // ------------------------------------------------------------------- loops

  /** The nested loops of the totals tool. */
  method CountWorkloads(replies: Request -> Reply<Controller>, scopes: seq<Scope>, kinds: seq<string>)
    returns (failure: Option<Error>, partial: bool, total: nat, ready: nat, unhealthy: nat)
    requires |kinds| == 3
    ensures failure == FirstFailure(replies, Requests(scopes, kinds))
    ensures failure.None? ==>
              Counted(WorkloadTool().unhealthy, replies, Requests(scopes, kinds), partial, total, ready, unhealthy)
  {
    hide Items, Requests, FirstFailure, Positions;
    ghost var isUnhealthy := WorkloadTool().unhealthy;
    ghost var done: seq<Request> := [];
    NothingCounted(isUnhealthy, replies);
    partial, total, ready, unhealthy := false, 0, 0, 0;
    ThreePerScope(scopes, kinds);
    for i := 0 to |scopes|
      invariant done == Requests(scopes, kinds)[..3 * i]
      invariant Counted(isUnhealthy, replies, done, partial, total, ready, unhealthy)
    {
      for j := 0 to 3
        invariant done == Requests(scopes, kinds)[..3 * i + j]
        invariant Counted(isUnhealthy, replies, done, partial, total, ready, unhealthy)
      {
        var request := Request(scopes[i], kinds[j]);
        var reply := replies(request);
        var t, r, u := CountItems(request, ReplyItems(reply));
        StepThroughThree(scopes, kinds, i, j, done);
        CountedNext(isUnhealthy, replies, done, request, partial, total, ready, unhealthy, t, r, u);
        done := done + [request];
        if reply.Failed? {
          FailureEndsObservation(replies, Requests(scopes, kinds), 3 * i + j + 1);
          failure := Some(reply.error);
          return;
        }
        partial, total, ready, unhealthy :=
          partial || reply.continueToken != "", total + t, ready + r, unhealthy + u;
      }
    }
    assert done == Requests(scopes, kinds);
    failure := None;
  }

  method CountItems(request: Request, items: seq<Controller>) returns (total: nat, ready: nat, unhealthy: nat)
    ensures total == |items| == ready + unhealthy
    ensures unhealthy == Count(WorkloadTool().unhealthy, Tag(request, items))
  {
    total, ready, unhealthy := 0, 0, 0;
    ghost var tagged := Tag(request, items);
    assert Positions(WorkloadTool().unhealthy, tagged[..0]) == {};
    for k := 0 to |items|
      invariant total == k == ready + unhealthy
      invariant unhealthy == Count(WorkloadTool().unhealthy, tagged[..k])
    {
      assert tagged[..k + 1] == tagged[..k] + [tagged[k]];
      CountNext(WorkloadTool().unhealthy, tagged[..k], tagged[k]);
      total := total + 1;
      var isReady, _, _, _ := ControllerHealth(items[k], request.kind);
      if isReady {
        ready := ready + 1;
      } else {
        unhealthy := unhealthy + 1;
      }
    }
    assert tagged[..|items|] == tagged;
  }

  /** The loops of the list tool. */
  method GatherWorkloads(replies: Request -> Reply<Controller>, scopes: seq<Scope>, kinds: seq<string>)
    returns (failure: Option<Error>, workloads: seq<WorkloadHealth>, truncated: bool)
    requires |kinds| == 3
    ensures failure == FirstFailure(replies, Requests(scopes, kinds))
    ensures failure.None? ==> Gathered(WorkloadTool(), replies, Requests(scopes, kinds), workloads, truncated)
  {
    hide Items, Candidates, Requests, Incomplete;
    ghost var tool := WorkloadTool();
    ghost var done: seq<Request> := [];
    workloads, truncated := [], false;
    NothingGathered(tool, replies);
    ThreePerScope(scopes, kinds);
    for i := 0 to |scopes|
      invariant done == Requests(scopes, kinds)[..3 * i]
      invariant Gathered(tool, replies, done, workloads, truncated)
    {
      for j := 0 to 3
        invariant done == Requests(scopes, kinds)[..3 * i + j]
        invariant Gathered(tool, replies, done, workloads, truncated)
      {
        var request := Request(scopes[i], kinds[j]);
        var reply := replies(request);
        var more, dropped := ReportItems(request, ReplyItems(reply));
        StepThroughThree(scopes, kinds, i, j, done);
        GatheredNext(tool, replies, done, request, workloads, truncated, more, dropped);
        done := done + [request];
        if reply.Failed? {
          FailureEndsObservation(replies, Requests(scopes, kinds), 3 * i + j + 1);
          failure := Some(reply.error);
          return;
        }
        workloads, truncated := workloads + more, truncated || reply.continueToken != "" || dropped;
      }
    }
    assert done == Requests(scopes, kinds);
    failure := None;
  }

  /** The list tool over the selected scopes: gather, sort, cut, check the size. */
  method ObserveWorkloads(
    targetID: string, replies: Request -> Reply<Controller>, scopes: seq<Scope>, kinds: seq<string>,
    limit: nat, now: Instant, format: Instant -> string)
    returns (r: Result<WorkloadsOutput>)
    requires Identifier(targetID) && limit <= MAX_LIST_LIMIT && Rfc3339(format) && Ascending(scopes)
    requires |kinds| == 3 && forall k | k in kinds :: ControllerKind(k)
    ensures WorkloadsResult(targetID, replies, scopes, kinds, limit, now, r)
  {
    var failure, workloads, truncated := GatherWorkloads(replies, scopes, kinds);
    if failure.Some? {
      return Err(failure.value);
    }
    ByKeyIsTotalPreorder(WorkloadTool().key);
    var sorted := SortSlice(workloads, ByKey(WorkloadTool().key));
    SortingKeepsMembers(ByKey(WorkloadTool().key), workloads, sorted);
    ghost var whole := sorted;
    if |sorted| > limit {
      sorted := sorted[..limit];
      truncated := true;
    }
    assert IsSorting(ByKey(WorkloadTool().key), workloads, whole) && sorted == Take(whole, limit);
    var result := WorkloadsOutput(targetID, now, sorted, truncated);
    ListedWorkloadsAreWellFormed(replies, scopes, kinds, limit, result);
    WorkloadsNeverTooLarge(result, format);
    var oversized := CheckResultSize(MarshalWorkloads(result, format));
    if oversized.Some? {
      return Err(oversized.value);
    }
    return Ok(result);
  }

  /** The innermost loop: the reports of one list, and whether a misnamed object was dropped. */
  method ReportItems(request: Request, items: seq<Controller>) returns (reports: seq<WorkloadHealth>, dropped: bool)
    ensures reports == Candidates(WorkloadTool(), Tag(request, items))
    ensures dropped <==> AnyMisnamed(WorkloadTool(), Tag(request, items))
  {
    reports, dropped := [], false;
    ghost var tool := WorkloadTool();
    ghost var tagged := Tag(request, items);
    for k := 0 to |items|
      invariant reports == Candidates(tool, tagged[..k])
      invariant dropped <==> AnyMisnamed(tool, tagged[..k])
    {
      var item := items[k];
      assert tagged[..k + 1] == tagged[..k] + [tagged[k]];
      assert tagged[..k + 1][..k] == tagged[..k];
      assert tagged[k] == Observed(request.scope.id, request.kind, item);
      assert Misnamed(tool, tagged[k]) <==> Unready(item, request.kind) && !ValidObjectName(item.name);
      var isReady, ready, desired, reasons := ControllerHealth(item, request.kind);
      if !isReady {
        if !ValidObjectName(item.name) {
          dropped := true;
        } else {
          reports := reports + [WorkloadHealth(request.scope.id, request.kind, item.name, ready, desired, reasons)];
        }
      }
    }
    assert tagged[..|items|] == tagged;
  }

  // ------------------------------------------------------------------- bounds

  lemma ReportsAreWellFormed(o: Observed<Controller>)
    requires Identifier(o.scope) && ControllerKind(o.kind) && Reportable(WorkloadTool(), o)
    ensures WorkloadShape(Report(o))
  {
    ReasonsAreTheSortedSet(o.item.conditions);
  }

  lemma ControllerKindsArePlain()
    ensures forall k | k in KINDS :: ControllerKind(k)
  {
  }

  lemma ListedWorkloadsAreWellFormed(
    replies: Request -> Reply<Controller>, scopes: seq<Scope>, kinds: seq<string>, limit: nat,
    out: WorkloadsOutput)
    requires Identifier(out.target) && limit <= MAX_LIST_LIMIT && Ascending(scopes)
    requires forall k | k in kinds :: ControllerKind(k)
    requires Lists(WorkloadTool(), replies, scopes, kinds, limit, out.workloads, out.truncated)
    ensures WorkloadsShape(out)
  {
    var tool, requests := WorkloadTool(), Requests(scopes, kinds);
    TopKeepsSome(ByKey(tool.key), Candidates(tool, Items(replies, requests)), limit, out.workloads);
    RequestsMembers(scopes, kinds);
    forall w | w in out.workloads ensures WorkloadShape(w) {
      var r, o := CandidateOrigin(tool, replies, requests, w);
      ReportsAreWellFormed(o);
    }
  }

  lemma {:induction false} ItemsAreBounded(replies: Request -> Reply<Controller>, requests: seq<Request>)
    requires Bounded(replies)
    ensures |Items(replies, requests)| <= |requests| * 2_097_152
  {
    if requests != [] {
      ItemsAreBounded(replies, requests[..|requests| - 1]);
      assert |ReplyItems(replies(requests[|requests| - 1]))| <= MAX_SOURCE_RESPONSE_BYTES;
    }
  }

  // -------------------------------------------------------------- main results

  function SumOfLengths(replies: Request -> Reply<Controller>, requests: seq<Request>): nat {
    if requests == [] then 0
    else SumOfLengths(replies, requests[..|requests| - 1]) + |ReplyItems(replies(requests[|requests| - 1]))|
  }

  lemma {:induction false} EveryItemIsCounted(replies: Request -> Reply<Controller>, requests: seq<Request>)
    ensures |Items(replies, requests)| == SumOfLengths(replies, requests)
  {
    if requests != [] {
      EveryItemIsCounted(replies, requests[..|requests| - 1]);
    }
  }

  function WarningRank(code: WarningCode): nat {
    match code
    case NodesNotReady => 0
    case WorkloadsNotReady => 1
    case PartialObservation => 2
  }

  /** At most three warnings, with positive counts, in a fixed order without repetition. */
  ghost predicate WarningsOrdered(warnings: seq<HealthWarning>) {
    && |warnings| <= 3
    && (forall w | w in warnings :: w.count > 0)
    && forall i, j | 0 <= i < j < |warnings| :: WarningRank(warnings[i].code) < WarningRank(warnings[j].code)
  }

  lemma SummaryConserves(
    targetID: string, now: Instant, nodes: nat, nodesReady: nat, partial: bool, total: nat, unhealthy: nat,
    out: ClusterHealthOutput)
    requires nodesReady <= nodes && unhealthy <= total
    requires Summarizes(targetID, now, nodes, nodesReady, partial, total, unhealthy, out)
    ensures WarningsOrdered(out.warnings)
    ensures out.status == Healthy <==> out.warnings == []
  {
  }

  /**
   The totals conserve: every listed controller is counted once, as ready or as unhealthy; the status
   is unknown iff something was cut, else healthy iff nothing is unready; the warnings are distinct,
   in a fixed order and with positive counts, and there are none iff the status is healthy.
   */
  lemma ClusterHealthConserves(
    targetID: string, nodes: seq<Node>, nodesCut: bool, replies: Request -> Reply<Controller>,
    scopes: seq<Scope>, kinds: seq<string>, now: Instant, out: ClusterHealthOutput)
    requires Totals(targetID, nodes, nodesCut, replies, scopes, kinds, now, out)
    ensures out.workloadsTotal == out.workloadsReady + out.workloadsUnhealthy
         == SumOfLengths(replies, Requests(scopes, kinds))
    ensures 0 <= out.workloadsUnhealthy && 0 <= out.workloadsReady
    ensures 0 <= out.nodesReady <= out.nodesTotal
    ensures out.status == StatusUnknown <==> out.partial
    ensures !out.partial ==>
              (out.status == Healthy <==>
                 out.nodesReady == out.nodesTotal && out.workloadsReady == out.workloadsTotal)
    ensures WarningsOrdered(out.warnings)
    ensures out.status == Healthy <==> out.warnings == []
  {
    var items := Items(replies, Requests(scopes, kinds));
    EveryItemIsCounted(replies, Requests(scopes, kinds));
    CountAtMost(WorkloadTool().unhealthy, items);
    SummaryConserves(targetID, now, |nodes|, CountReadyNodes(nodes),
                     nodesCut || Continued(replies, Requests(scopes, kinds)),
                     |items|, Count(WorkloadTool().unhealthy, items), out);
  }

  /**
   The list and the totals agree on one set of answers: the flag is raised iff a controller list was
   cut, an unhealthy controller has an invalid name, or more than `limit` valid ones are unhealthy;
   when it is not raised, the list has every controller the totals count as unhealthy.
   */
  lemma ListAgreesWithTotals(
    targetID: string, nodes: seq<Node>, nodesCut: bool, replies: Request -> Reply<Controller>,
    scopes: seq<Scope>, kinds: seq<string>, limit: nat, now: Instant,
    list: WorkloadsOutput, totals: ClusterHealthOutput)
    requires WorkloadsListed(targetID, replies, scopes, kinds, limit, now, list)
    requires Totals(targetID, nodes, nodesCut, replies, scopes, kinds, now, totals)
    ensures var misnamed := Count(MisnamedBy(WorkloadTool()), Items(replies, Requests(scopes, kinds)));
            && 0 <= misnamed <= totals.workloadsUnhealthy
            && |list.workloads| == Min(limit, totals.workloadsUnhealthy - misnamed)
            && (list.truncated <==>
                  || Continued(replies, Requests(scopes, kinds))
                  || misnamed > 0
                  || totals.workloadsUnhealthy - misnamed > limit)
    ensures !list.truncated ==> |list.workloads| == totals.workloadsUnhealthy
  {
    hide Items, Requests, Positions, Warnings;
    TruncationIsExact(WorkloadTool(), replies, scopes, kinds, limit, list.workloads, list.truncated);
  }

  /**
   The unhealthy workloads of all the scopes of a client are those of its scopes one by one, concatenated
   in the order of the scope identifiers and cut again, and the flag follows from the flags and lengths.
   */
  lemma WorkloadsDistributeOverScopes(
    targetID: string, table: map<string, string>, scopes: seq<Scope>, replies: Request -> Reply<Controller>,
    limit: nat, now: Instant, all: WorkloadsOutput, each: seq<WorkloadsOutput>)
    requires ValidTable(table) && Enumerates(table, scopes)
    requires WorkloadsListed(targetID, replies, scopes, KINDS, limit, now, all)
    requires |each| == |scopes|
    requires forall i | 0 <= i < |scopes| :: WorkloadsListed(targetID, replies, [scopes[i]], KINDS, limit, now, each[i])
    ensures UniqueNames(WorkloadTool(), replies, Requests(scopes, KINDS)) ==>
              all.workloads == Take(Flatten(EachWorkloads(each)), limit)
    ensures all.truncated <==>
              (exists i | 0 <= i < |each| :: each[i].truncated) || |Flatten(EachWorkloads(each))| > limit
  {
    hide Lists, Requests, Flatten, UniqueNames, WorkloadTool, Coherent;
    hide PlainKinds, Ascending, Tied, ValidTable, Enumerates, Take;
    WorkloadToolIsCoherent();
    SelectedScopesAscend(table, "", scopes);
    var flags := seq(|each|, i requires 0 <= i < |each| => each[i].truncated);
    ListingDistributesOverScopes(WorkloadTool(), replies, scopes, KINDS, limit, all.workloads, all.truncated,
                                 EachWorkloads(each), flags);
    assert forall i | 0 <= i < |each| :: flags[i] == each[i].truncated;
  }

  function EachWorkloads(each: seq<WorkloadsOutput>): (lists: seq<seq<WorkloadHealth>>)
    ensures |lists| == |each| && forall i | 0 <= i < |each| :: lists[i] == each[i].workloads
  {
    seq(|each|, i requires 0 <= i < |each| => each[i].workloads)
  }

  function Min(a: int, b: int): int { if a <= b then a else b }

  // -------------------------------------------------------------- result size

  /** No request error is about the size of a result; the HTTP client has no such error. */
  ghost predicate RequestErrorsFit(source: Source) {
    && (source.nodes.NotFetched? ==> !Is(source.nodes.error, ResultTooLarge))
    && forall path | source.controllers(path).NotFetched? :: !Is(source.controllers(path).error, ResultTooLarge)
  }

  lemma FailuresFit(source: Source, requests: seq<Request>)
    requires RequestErrorsFit(source)
    ensures FirstFailure(Replies(source), requests).Some? ==>
              !Is(FirstFailure(Replies(source), requests).value, ResultTooLarge)
  {
    hide RequestPath, ResourceName;
    FailureIsOfSource(Replies(source), requests);
  }

  /** Whatever the client answers, its result passes the size check and its error is not that of the check. */
  lemma ListAnswersFit(
    c: Client, source: Source, input: ScopedListInput, now: Instant, format: Instant -> string,
    r: Result<WorkloadsOutput>)
    requires c.Valid() && Rfc3339(format) && RequestErrorsFit(source)
    requires c.AnswersList(source, input, now, r)
    ensures Fits(r, (out: WorkloadsOutput) => MarshalWorkloads(out, format))
  {
    hide Requests, Lists, FirstFailure, RequestErrorsFit, Rfc3339, Identifier, Ascending, ValidTable;
    var n := NormalizeWorkloadsInput(input);
    if n.Ok? && n.value.target == c.targetID && (n.value.scope == "" || n.value.scope in c.scopes) {
      var selected := SelectionExists(c.scopes, n.value.scope);
      SelectedScopesAscend(c.scopes, n.value.scope, selected);
      FailuresFit(source, Requests(selected, KINDS));
      if r.Ok? {
        ControllerKindsArePlain();
        ListedWorkloadsAreWellFormed(Replies(source), selected, KINDS, n.value.limit, r.value);
        WorkloadsNeverTooLarge(r.value, format);
      }
    }
  }

  lemma TotalsAnswersFit(
    c: Client, source: Source, now: Instant, format: Instant -> string, r: Result<ClusterHealthOutput>)
    requires c.Valid() && Rfc3339(format) && RequestErrorsFit(source) && BoundedSource(source)
    requires c.AnswersTotals(source, now, r)
    ensures Fits(r, (out: ClusterHealthOutput) => MarshalClusterHealth(out, format))
  {
    hide Requests, Items, FirstFailure, Rfc3339, Warnings, Positions;
    var all := EnumerationExists(c.scopes);
    var replies, requests := Replies(source), Requests(all, KINDS);
    FailuresFit(source, requests);
    if r.Ok? {
      var items, nodes := Items(replies, requests), source.nodes.items;
      EnumerationLength(c.scopes, all);
      ThreePerScope(all, KINDS);
      ItemsAreBounded(replies, requests);
      CountAtMost(WorkloadTool().unhealthy, items);
      SummaryIsWellFormed(
        c.targetID, now, |nodes|, CountReadyNodes(nodes),
        source.nodes.continueToken != "" || Continued(replies, requests),
        |items|, Count(WorkloadTool().unhealthy, items), r.value);
      ClusterHealthNeverTooLarge(r.value, format);
    }
  }
}
