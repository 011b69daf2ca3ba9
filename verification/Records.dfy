/**
 What the Kubernetes and Flux answers say, on the fields of the records the sources send: which nodes are
 ready, which controllers and Flux objects are unhealthy, and what each report copies from its record. None
 of the adapters' own helper functions is mentioned.
 */
module Records {
  import opened Text
  import opened Errors
  import opened Contracts
  import opened Policy
  import opened Sorting
  import opened TopList
  import opened Sums
  import opened Fanout
  import opened Kubernetes
  import opened ToolErrors
  import KubernetesClient
  import Flux

  /** What a controller should have, and what it has. */
  function Wanted(c: Controller, kind: string): int {
    if kind == "DaemonSet" then c.desiredNumberScheduled else c.replicas.GetOr(1)
  }

  function Had(c: Controller, kind: string): int {
    if kind == "DaemonSet" then c.numberReady else c.readyReplicas
  }

  /** Fewer replicas are ready than are wanted. */
  predicate Short(c: Controller, kind: string) {
    Had(c, kind) < Wanted(c, kind)
  }

  function ShortObjects(): Observed<Controller> -> bool {
    (o: Observed<Controller>) => Short(o.item, o.kind)
  }

  function NamedShortObjects(): Observed<Controller> -> bool {
    (o: Observed<Controller>) => Short(o.item, o.kind) && ValidObjectName(o.item.name)
  }

  function AnyObject<I>(): Observed<I> -> bool {
    (o: Observed<I>) => true
  }

  /** Some list among the answers was cut by the source. */
  ghost predicate SomeCut<I>(replies: Request -> Reply<I>, scopes: seq<Scope>, kinds: seq<string>) {
    exists r: Request | r.scope in scopes && r.kind in kinds :: replies(r).Fetched? && replies(r).continueToken != ""
  }

  lemma ContinuedIffSomeCut<I>(replies: Request -> Reply<I>, scopes: seq<Scope>, kinds: seq<string>)
    ensures Continued(replies, Requests(scopes, kinds)) <==> SomeCut(replies, scopes, kinds)
  {
    hide Requests;
    RequestsMembers(scopes, kinds);
  }

  // ------------------------------------------------------------------- totals

  /**
   The totals, on the records: which nodes are ready, how many controllers were listed and are short, and what
   status and warnings follow.
   */
  lemma TotalsOnRecords(
    targetID: string, nodes: seq<Node>, nodesCut: bool, replies: Request -> Reply<Controller>,
    scopes: seq<Scope>, kinds: seq<string>, now: Instant, out: ClusterHealthOutput)
    requires KubernetesClient.Totals(targetID, nodes, nodesCut, replies, scopes, kinds, now, out)
    ensures out.nodesTotal == |nodes| && out.nodesReady == |ReadyPositions(nodes)|
    ensures out.workloadsTotal == Sum(EachCount(AnyObject(), replies, Requests(scopes, kinds)))
    ensures out.workloadsUnhealthy == Sum(EachCount(ShortObjects(), replies, Requests(scopes, kinds)))
    ensures out.partial <==> nodesCut || SomeCut(replies, scopes, kinds)
    ensures out.status == StatusUnknown <==> out.partial
    ensures !out.partial ==>
              (out.status == Healthy <==>
                 && (forall i | 0 <= i < |nodes| :: ReadyByFirst(nodes[i]))
                 && forall r: Request, c | r.scope in scopes && r.kind in kinds && c in ReplyItems(replies(r)) ::
                      !Short(c, r.kind))
    ensures forall w :: w in out.warnings <==>
              || (w == HealthWarning(NodesNotReady, out.nodesTotal - out.nodesReady) && w.count > 0)
              || (w == HealthWarning(WorkloadsNotReady, out.workloadsUnhealthy) && w.count > 0)
              || (w == HealthWarning(PartialObservation, 1) && out.partial)
  {
    hide Items, Requests, ReadyByFirst, Short, Positions, Continued, SomeCut;
    var requests, items := Requests(scopes, kinds), Items(replies, Requests(scopes, kinds));
    ReadyNodesAreCounted(nodes);
    AllReadyIffCounted(nodes);
    ContinuedIffSomeCut(replies, scopes, kinds);
    CountsAgree(KubernetesClient.WorkloadTool().unhealthy, ShortObjects(), items) by {
      forall o: Observed<Controller> ensures KubernetesClient.WorkloadTool().unhealthy(o) == ShortObjects()(o) {
        UnreadyIsShort(o.item, o.kind);
      }
    }
    CountIsSum(ShortObjects(), replies, requests);
    CountOfAll(items);
    CountIsSum(AnyObject(), replies, requests);
    CountIsPositiveIffSome(ShortObjects(), items);
    ListedIffAnswered(ShortObjects(), replies, scopes, kinds);
  }

  lemma UnreadyIsShort(c: Controller, kind: string)
    ensures Unready(c, kind) <==> Short(c, kind)
  {
  }

  lemma AllReadyIffCounted(nodes: seq<Node>)
    ensures |ReadyPositions(nodes)| <= |nodes|
    ensures |ReadyPositions(nodes)| == |nodes| <==> forall i | 0 <= i < |nodes| :: ReadyByFirst(nodes[i])
  {
    hide ReadyByFirst;
    var all, ready := Below(|nodes|), ReadyPositions(nodes);
    BelowSize(|nodes|);
    assert all == ready + (all - ready);
    if forall i | 0 <= i < |nodes| :: ReadyByFirst(nodes[i]) {
      assert ready == all;
    }
    if |ready| == |nodes| {
      assert all - ready == {};
      forall i | 0 <= i < |nodes| ensures ReadyByFirst(nodes[i]) {
        assert i in all;
      }
    }
  }

  function Below(n: nat): set<int> {
    if n == 0 then {} else Below(n - 1) + {n - 1}
  }

  lemma {:induction false} BelowSize(n: nat)
    ensures |Below(n)| == n && forall i :: i in Below(n) <==> 0 <= i < n
  {
    if n > 0 {
      BelowSize(n - 1);
    }
  }

  lemma CountOfAll<I>(items: seq<Observed<I>>)
    ensures Count(AnyObject(), items) == |items|
  {
    BelowSize(|items|);
    assert Positions(AnyObject(), items) == Below(|items|);
  }

  lemma CountIsPositiveIffSome<I>(p: Observed<I> -> bool, items: seq<Observed<I>>)
    ensures Count(p, items) > 0 <==> exists o | o in items :: p(o)
  {
    if o :| o in items && p(o) {
      var i :| 0 <= i < |items| && items[i] == o;
      assert i in Positions(p, items);
    }
    if Count(p, items) > 0 {
      var i :| i in Positions(p, items);
      assert items[i] in items;
    }
  }

  // ---------------------------------------------------------------- workloads

  /** `r` is a reason of these conditions: what one of them is normalised to, or not-ready if none says. */
  ghost predicate IsReason(conditions: seq<Condition>, r: WorkloadReason) {
    || (exists c | c in conditions :: c.reason != "" && NormalizeWorkloadReason(c.reason) == r)
    || (r == NotReady && forall c | c in conditions :: c.reason == "")
  }

  /** The reasons in the strict order of their texts. */
  ghost predicate ReasonsAre(reasons: seq<WorkloadReason>, conditions: seq<Condition>) {
    && Strict(CompareReasons, reasons)
    && forall r :: r in reasons <==> IsReason(conditions, r)
  }

  lemma ReasonsOfAreReasons(conditions: seq<Condition>, reasons: seq<WorkloadReason>)
    ensures ReasonsAre(reasons, conditions) <==> reasons == ReasonsOf(conditions)
  {
    ReasonsAreTheSortedSet(conditions);
    forall r ensures r in ReasonSet(conditions) <==> IsReason(conditions, r) {
      ReasonSetMembers(conditions, r);
    }
    if ReasonsAre(reasons, conditions) {
      CompareReasonsIsTotalPreorder();
      StrictOrderIsUnique(CompareReasons, reasons, ReasonsOf(conditions));
    }
  }

  lemma ReasonSetMembers(conditions: seq<Condition>, r: WorkloadReason)
    ensures r in ReasonSet(conditions) <==> IsReason(conditions, r)
  {
    hide NormalizeWorkloadReason;
    var given := set c | c in conditions && c.reason != "" :: NormalizeWorkloadReason(c.reason);
    if c :| c in conditions && c.reason != "" {
      assert NormalizeWorkloadReason(c.reason) in given;
    } else {
      assert given == {};
    }
  }

  /** `w` reports the record `c` of the answer to `r`, which is short and has a valid name. */
  ghost predicate ReportsWorkload(w: WorkloadHealth, r: Request, c: Controller) {
    && Short(c, r.kind) && ValidObjectName(c.name)
    && w.scope == r.scope.id && w.kind == r.kind && w.name == c.name
    && w.ready == Had(c, r.kind) && w.desired == Wanted(c, r.kind)
    && ReasonsAre(w.reasons, c.conditions)
  }

  /** `w` reports some record of the answers. */
  ghost predicate IsWorkload(
    replies: Request -> Reply<Controller>, scopes: seq<Scope>, kinds: seq<string>, w: WorkloadHealth)
  {
    exists r: Request, c | r.scope in scopes && r.kind in kinds && c in ReplyItems(replies(r)) ::
      ReportsWorkload(w, r, c)
  }

  lemma ReportIsOfRecord(r: Request, c: Controller, w: WorkloadHealth)
    ensures IsReportOf(KubernetesClient.WorkloadTool(), r, c, w) <==> ReportsWorkload(w, r, c)
  {
    hide ReasonsAre, ReasonsOf, ValidObjectName;
    UnreadyIsShort(c, r.kind);
    ReasonsOfAreReasons(c.conditions, w.reasons);
  }

  /**
   The workload list, on the records: it reports short controllers with valid names and nothing else, copying
   their numbers and reasons; its length and flag follow from how many there are; and a list without the flag
   reports every short controller.
   */
  lemma WorkloadsOnRecords(
    targetID: string, replies: Request -> Reply<Controller>, scopes: seq<Scope>, kinds: seq<string>,
    limit: nat, now: Instant, out: WorkloadsOutput)
    requires KubernetesClient.WorkloadsListed(targetID, replies, scopes, kinds, limit, now, out)
    ensures forall w | w in out.workloads :: IsWorkload(replies, scopes, kinds, w)
    ensures !out.truncated ==> forall w | IsWorkload(replies, scopes, kinds, w) :: w in out.workloads
    ensures var n := Sum(EachCount(NamedShortObjects(), replies, Requests(scopes, kinds)));
            && |out.workloads| == (if n <= limit then n else limit)
            && (out.truncated <==>
                  || SomeCut(replies, scopes, kinds) || n > limit
                  || exists r: Request, c | r.scope in scopes && r.kind in kinds && c in ReplyItems(replies(r)) ::
                       Short(c, r.kind) && !ValidObjectName(c.name))
  {
    hide Items, Requests, Candidates, ValidObjectName, Short, ReportsWorkload, Continued, SomeCut, Count, IsTop;
    var tool := KubernetesClient.WorkloadTool();
    var requests, items := Requests(scopes, kinds), Items(replies, Requests(scopes, kinds));
    var candidates := Candidates(tool, items);
    forall w ensures w in candidates <==> IsWorkload(replies, scopes, kinds, w) {
      CandidateIsWorkload(replies, scopes, kinds, w);
    }
    TopKeepsSome(ByKey(tool.key), candidates, limit, out.workloads);
    if |candidates| <= limit {
      UncutKeepsAll(ByKey(tool.key), candidates, limit, out.workloads);
    }
    NamedShortAreCounted(replies, requests);
    ContinuedIffSomeCut(replies, scopes, kinds);
    MisnamedShort(replies, scopes, kinds);
  }

  lemma CandidateIsWorkload(
    replies: Request -> Reply<Controller>, scopes: seq<Scope>, kinds: seq<string>, w: WorkloadHealth)
    ensures w in Candidates(KubernetesClient.WorkloadTool(), Items(replies, Requests(scopes, kinds)))
       <==> IsWorkload(replies, scopes, kinds, w)
  {
    hide Items, Requests, Candidates, ReportsWorkload, IsReportOf, KubernetesClient.WorkloadTool;
    ReportedIffAnswered(KubernetesClient.WorkloadTool(), replies, scopes, kinds, w);
    forall r: Request, c: Controller
      ensures IsReportOf(KubernetesClient.WorkloadTool(), r, c, w) <==> ReportsWorkload(w, r, c)
    {
      ReportIsOfRecord(r, c, w);
    }
  }

  lemma NamedShortAreCounted(replies: Request -> Reply<Controller>, requests: seq<Request>)
    ensures |Candidates(KubernetesClient.WorkloadTool(), Items(replies, requests))|
         == Sum(EachCount(NamedShortObjects(), replies, requests))
  {
    hide Items, Candidates, ValidObjectName, Short, Positions, Unready;
    var tool, items := KubernetesClient.WorkloadTool(), Items(replies, requests);
    CandidatesAreCounted(tool, items);
    forall o: Observed<Controller> ensures Reportable(tool, o) == NamedShortObjects()(o) {
      UnreadyIsShort(o.item, o.kind);
    }
    CountsAgree((o: Observed<Controller>) => Reportable(tool, o), NamedShortObjects(), items);
    CountIsSum(NamedShortObjects(), replies, requests);
  }

  lemma MisnamedShort(replies: Request -> Reply<Controller>, scopes: seq<Scope>, kinds: seq<string>)
    ensures AnyMisnamed(KubernetesClient.WorkloadTool(), Items(replies, Requests(scopes, kinds)))
       <==> exists r: Request, c | r.scope in scopes && r.kind in kinds && c in ReplyItems(replies(r)) ::
              Short(c, r.kind) && !ValidObjectName(c.name)
  {
    hide Items, Requests, ValidObjectName, Short, Unready;
    var p := (o: Observed<Controller>) => Short(o.item, o.kind) && !ValidObjectName(o.item.name);
    forall o: Observed<Controller> ensures Misnamed(KubernetesClient.WorkloadTool(), o) == p(o) {
      UnreadyIsShort(o.item, o.kind);
    }
    ListedIffAnswered(p, replies, scopes, kinds);
  }

  // --------------------------------------------------------------------- flux

  /** The first `Ready` condition is not `True`, or there is none. */
  ghost predicate Unreconciled(item: Flux.Object) {
    forall i | Flux.FirstReady(item.conditions, i) :: item.conditions[i].status != "True"
  }

  /** What a report says of the conditions of its object. */
  ghost predicate TellsConditions(x: Reconciliation, conditions: seq<Flux.Condition>) {
    && (forall i | Flux.FirstReady(conditions, i) ::
          && x.state == (if conditions[i].status == "False" then ReadinessFalse else ReadinessUnknown)
          && x.reason == NormalizeReconciliationReason(conditions[i].reason)
          && x.transitionedAt == conditions[i].lastTransition)
    && ((forall i :: !Flux.FirstReady(conditions, i)) ==>
          x.state == ReadinessUnknown && x.reason == OtherReason && x.transitionedAt.None?)
  }

  /** `x` reports the object `item` of the answer to `r`, which is not ready and has a valid name. */
  ghost predicate ReportsReconciliation(x: Reconciliation, r: Request, item: Flux.Object) {
    && Unreconciled(item) && ValidObjectName(item.name)
    && x.scope == r.scope.id && x.kind == r.kind && x.name == item.name
    && TellsConditions(x, item.conditions)
  }

  ghost predicate IsReconciliation(
    replies: Request -> Reply<Flux.Object>, scopes: seq<Scope>, kinds: seq<string>, x: Reconciliation)
  {
    exists r: Request, item | r.scope in scopes && r.kind in kinds && item in ReplyItems(replies(r)) ::
      ReportsReconciliation(x, r, item)
  }

  ghost function NamedUnreconciledObjects(): Observed<Flux.Object> -> bool {
    (o: Observed<Flux.Object>) => Unreconciled(o.item) && ValidObjectName(o.item.name)
  }

  lemma UnreconciledByFirst(item: Flux.Object)
    ensures Flux.HealthOf(item.conditions).Reconciled? <==> !Unreconciled(item)
  {
    Flux.HealthIsFirstReady(item.conditions);
  }

  lemma HealthTellsConditions(x: Reconciliation, item: Flux.Object)
    requires Unreconciled(item)
    ensures var h := Flux.HealthOf(item.conditions);
            && h.Unreconciled?
            && (TellsConditions(x, item.conditions) <==>
                  x.state == h.state && x.reason == h.reason && x.transitionedAt == h.transitionedAt)
  {
    hide Flux.HealthOf, NormalizeReconciliationReason;
    Flux.HealthIsFirstReady(item.conditions);
    if i :| Flux.FirstReady(item.conditions, i) {
      forall j | Flux.FirstReady(item.conditions, j) ensures j == i {
      }
    }
  }

  lemma ReconciliationIsOfObject(r: Request, item: Flux.Object, x: Reconciliation)
    ensures IsReportOf(Flux.FluxTool(), r, item, x) <==> ReportsReconciliation(x, r, item)
  {
    hide Flux.HealthOf, TellsConditions, Unreconciled, ValidObjectName;
    UnreconciledByFirst(item);
    if Unreconciled(item) {
      HealthTellsConditions(x, item);
    }
  }

  /** The Flux list, on the records, in the same way. */
  lemma ReconciliationsOnRecords(
    targetID: string, replies: Request -> Reply<Flux.Object>, scopes: seq<Scope>, kinds: seq<string>,
    limit: nat, now: Instant, out: ReconciliationsOutput)
    requires Flux.ReconciliationsListed(targetID, replies, scopes, kinds, limit, now, out)
    ensures forall x | x in out.reconciliations :: IsReconciliation(replies, scopes, kinds, x)
    ensures !out.truncated ==> forall x | IsReconciliation(replies, scopes, kinds, x) :: x in out.reconciliations
    ensures var n := Sum(EachCount(NamedUnreconciledObjects(), replies, Requests(scopes, kinds)));
            && |out.reconciliations| == (if n <= limit then n else limit)
            && (out.truncated <==>
                  || SomeCut(replies, scopes, kinds) || n > limit
                  || exists r: Request, item | r.scope in scopes && r.kind in kinds && item in ReplyItems(replies(r)) ::
                       Unreconciled(item) && !ValidObjectName(item.name))
  {
    hide Items, Requests, Candidates, ValidObjectName, Unreconciled, ReportsReconciliation;
    hide Continued, SomeCut, Count, IsTop, Flux.HealthOf;
    var tool := Flux.FluxTool();
    var requests, items := Requests(scopes, kinds), Items(replies, Requests(scopes, kinds));
    var candidates := Candidates(tool, items);
    forall x ensures x in candidates <==> IsReconciliation(replies, scopes, kinds, x) {
      CandidateIsReconciliation(replies, scopes, kinds, x);
    }
    TopKeepsSome(ByKey(tool.key), candidates, limit, out.reconciliations);
    if |candidates| <= limit {
      UncutKeepsAll(ByKey(tool.key), candidates, limit, out.reconciliations);
    }
    NamedUnreconciledAreCounted(replies, requests);
    ContinuedIffSomeCut(replies, scopes, kinds);
    MisnamedUnreconciled(replies, scopes, kinds);
  }

  lemma CandidateIsReconciliation(
    replies: Request -> Reply<Flux.Object>, scopes: seq<Scope>, kinds: seq<string>, x: Reconciliation)
    ensures x in Candidates(Flux.FluxTool(), Items(replies, Requests(scopes, kinds)))
       <==> IsReconciliation(replies, scopes, kinds, x)
  {
    hide Items, Requests, Candidates, ReportsReconciliation, IsReportOf, Flux.FluxTool;
    ReportedIffAnswered(Flux.FluxTool(), replies, scopes, kinds, x);
    forall r: Request, item: Flux.Object
      ensures IsReportOf(Flux.FluxTool(), r, item, x) <==> ReportsReconciliation(x, r, item)
    {
      ReconciliationIsOfObject(r, item, x);
    }
  }

  lemma NamedUnreconciledAreCounted(replies: Request -> Reply<Flux.Object>, requests: seq<Request>)
    ensures |Candidates(Flux.FluxTool(), Items(replies, requests))|
         == Sum(EachCount(NamedUnreconciledObjects(), replies, requests))
  {
    hide Items, Candidates, ValidObjectName, Unreconciled, Positions, Flux.HealthOf;
    var tool, items := Flux.FluxTool(), Items(replies, requests);
    CandidatesAreCounted(tool, items);
    forall o: Observed<Flux.Object> ensures Reportable(tool, o) == NamedUnreconciledObjects()(o) {
      UnreconciledByFirst(o.item);
    }
    CountsAgree((o: Observed<Flux.Object>) => Reportable(tool, o), NamedUnreconciledObjects(), items);
    CountIsSum(NamedUnreconciledObjects(), replies, requests);
  }

  lemma MisnamedUnreconciled(replies: Request -> Reply<Flux.Object>, scopes: seq<Scope>, kinds: seq<string>)
    ensures AnyMisnamed(Flux.FluxTool(), Items(replies, Requests(scopes, kinds)))
       <==> exists r: Request, item | r.scope in scopes && r.kind in kinds && item in ReplyItems(replies(r)) ::
              Unreconciled(item) && !ValidObjectName(item.name)
  {
    hide Items, Requests, ValidObjectName, Unreconciled, Flux.HealthOf;
    var p := (o: Observed<Flux.Object>) => Unreconciled(o.item) && !ValidObjectName(o.item.name);
    forall o: Observed<Flux.Object> ensures Misnamed(Flux.FluxTool(), o) == p(o) {
      UnreconciledByFirst(o.item);
    }
    ListedIffAnswered(p, replies, scopes, kinds);
  }

  // ------------------------------------------------------------------- errors

  /**
   What an observation reports when it fails: the first request that is not answered with a list decides; a
   request error comes out as it would alone, and text that is no list as an invalid response.
   */
  lemma WorkloadFailureIsTheRequests(source: Source, requests: seq<Request>, i: nat)
    requires i < |requests|
    requires forall j | 0 <= j < i :: source.controllers(RequestPath(requests[j])).Decoded?
    requires !source.controllers(RequestPath(requests[i])).Decoded?
    ensures var failure := FirstFailure(KubernetesClient.Replies(source), requests);
            var body := source.controllers(RequestPath(requests[i]));
            && failure.Some?
            && SafeToolError(failure.value) == if body.NotFetched? then SafeToolError(body.error)
                                               else Value(KubernetesInvalidResponse)
  {
    hide SafeToolError, RequestPath, Kubernetes.ResourceName;
    FirstFailureAt(KubernetesClient.Replies(source), requests, i);
    var body := source.controllers(RequestPath(requests[i]));
    if body.NotFetched? {
      WrappingIsTransparent("observe " + Kubernetes.ResourceName(requests[i].kind), body.error);
    } else {
      PublicValuesPass(KubernetesInvalidResponse);
    }
  }

  lemma ReconciliationFailureIsTheRequests(source: Flux.Source, requests: seq<Request>, i: nat)
    requires i < |requests|
    requires forall j | 0 <= j < i :: source(Flux.RequestPath(requests[j])).Decoded?
    requires !source(Flux.RequestPath(requests[i])).Decoded?
    ensures var failure := FirstFailure(Flux.Replies(source), requests);
            var body := source(Flux.RequestPath(requests[i]));
            && failure.Some?
            && SafeToolError(failure.value) == if body.NotFetched? then SafeToolError(body.error)
                                               else Value(SourceInvalidResponse)
  {
    hide SafeToolError, Flux.RequestPath;
    FirstFailureAt(Flux.Replies(source), requests, i);
    PublicValuesPass(SourceInvalidResponse);
  }
}
