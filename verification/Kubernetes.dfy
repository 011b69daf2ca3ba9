/**
 The Kubernetes adapter: the cluster totals and the bounded list of unhealthy controllers, both
 computed from the same answers of the source, and the request paths those answers are asked under.
 */
module Kubernetes {
  import opened Text
  import opened Errors
  import opened Contracts
  import opened Policy
  import opened Sorting
  import opened Fanout
  import opened Scopes

  // ------------------------------------------------------------------ records

  datatype Condition = Condition(typ: string, status: string, reason: string)

  datatype Node = Node(conditions: seq<Condition>)

  datatype Controller = Controller(
    name: string, replicas: Option<Int64>,
    readyReplicas: Int64, desiredNumberScheduled: Int64, numberReady: Int64,
    conditions: seq<Condition>)

  /** What a list request came to: a decoded list, text that is not one, or a request error. */
  datatype Body<I> = Decoded(items: seq<I>, continueToken: string) | Malformed | NotFetched(error: Error)

  /** The answers of the source: to the node list, and to every other path. */
  datatype Source = Source(nodes: Body<Node>, controllers: string -> Body<Controller>)

  const KINDS: seq<string> := [DEPLOYMENT, STATEFUL_SET, DAEMON_SET]

  function ResourceName(kind: string): string {
    if kind == DEPLOYMENT then "deployments"
    else if kind == STATEFUL_SET then "statefulsets"
    else "daemonsets"
  }

  // -------------------------------------------------------------------- paths

  /** Whether `url.PathEscape` keeps a byte as it is. */
  predicate PathByte(c: char) {
    || Lower(c) || Upper(c) || Digit(c)
    || c == '-' || c == '_' || c == '.' || c == '~'
    || c == '$' || c == '&' || c == '+' || c == '=' || c == ':' || c == '@'
  }

  function UpperHex(n: nat): char
    requires n < 16
  {
    if n < 10 then ('0' as int + n) as char else ('A' as int + n - 10) as char
  }

  /** `url.PathEscape`. */
  function PathEscape(s: string): string {
    if s == "" then ""
    else if PathByte(s[0]) then [s[0]] + PathEscape(s[1..])
    else ['%', UpperHex((s[0] as int) / 16 % 16), UpperHex((s[0] as int) % 16)] + PathEscape(s[1..])
  }

  const CONTROLLER_PREFIX := "/apis/apps/v1/namespaces/"

  function ControllerPath(namespace: string, resource: string): string {
    CONTROLLER_PREFIX + PathEscape(namespace) + "/" + resource
  }

  /** The path `listControllers` asks for. */
  function RequestPath(r: Request): string {
    ControllerPath(r.scope.namespace, ResourceName(r.kind))
  }

  lemma {:induction false} LabelIsNotEscaped(s: string)
    requires forall i | 0 <= i < |s| :: LabelChar(s[i])
    ensures PathEscape(s) == s
  {
    if s != "" {
      LabelIsNotEscaped(s[1..]);
      assert s == [s[0]] + s[1..];
    }
  }

  lemma NamespaceRecoverable(a: string, s: string, b: string, t: string)
    requires Lacks(a, '/') && Lacks(b, '/')
    requires a + "/" + s == b + "/" + t
    ensures a == b && s == t
  {
    var x, y := a + "/" + s, b + "/" + t;
    assert x[|a|] == '/' && y[|b|] == '/';
    assert forall i | 0 <= i < |a| :: x[i] == a[i] != '/';
    assert forall i | 0 <= i < |b| :: y[i] == b[i] != '/';
    assert |a| == |b|;
    assert x[..|a|] == a && y[..|b|] == b;
    assert x[|a| + 1..] == s && y[|b| + 1..] == t;
  }

  /** Namespace and resource can be read off a controller path, so different requests have different paths. */
  lemma PathsAreDistinct(n1: string, k1: string, n2: string, k2: string)
    requires Label(n1) && Label(n2) && k1 in KINDS && k2 in KINDS
    ensures ControllerPath(n1, ResourceName(k1)) == ControllerPath(n2, ResourceName(k2))
       <==> n1 == n2 && k1 == k2
  {
    LabelIsNotEscaped(n1);
    LabelIsNotEscaped(n2);
    var r1, r2 := ResourceName(k1), ResourceName(k2);
    var p1, p2 := ControllerPath(n1, r1), ControllerPath(n2, r2);
    assert p1[|CONTROLLER_PREFIX|..] == n1 + "/" + r1;
    assert p2[|CONTROLLER_PREFIX|..] == n2 + "/" + r2;
    if p1 == p2 {
      NamespaceRecoverable(n1, r1, n2, r2);
      ResourceNamesDiffer(k1, k2);
    }
  }

  lemma ResourceNamesDiffer(k1: string, k2: string)
    requires k1 in KINDS && k2 in KINDS && ResourceName(k1) == ResourceName(k2)
    ensures k1 == k2
  {
    assert |ResourceName(DEPLOYMENT)| == 11 && |ResourceName(STATEFUL_SET)| == 12 && |ResourceName(DAEMON_SET)| == 10;
  }

  /** The path of each kind, with the namespace as it is. */
  lemma PathsAreFixed(scope: Scope)
    requires Label(scope.namespace)
    ensures RequestPath(Request(scope, "Deployment")) == "/apis/apps/v1/namespaces/" + scope.namespace + "/deployments"
    ensures RequestPath(Request(scope, "StatefulSet"))
         == "/apis/apps/v1/namespaces/" + scope.namespace + "/statefulsets"
    ensures RequestPath(Request(scope, "DaemonSet")) == "/apis/apps/v1/namespaces/" + scope.namespace + "/daemonsets"
    ensures KINDS == ["Deployment", "StatefulSet", "DaemonSet"]
  {
    hide PathEscape;
    LabelIsNotEscaped(scope.namespace);
  }

  /** Different requests of an accepted configuration have different paths. */
  lemma RequestPathsIdentify(table: map<string, string>, scopes: seq<Scope>, r: Request, q: Request)
    requires ValidTable(table) && Enumerates(table, scopes)
    requires r in Requests(scopes, KINDS) && q in Requests(scopes, KINDS)
    ensures RequestPath(r) == RequestPath(q) <==> r == q
  {
    RequestsMembers(scopes, KINDS);
    assert r.scope.id in table && q.scope.id in table;
    PathsAreDistinct(r.scope.namespace, r.kind, q.scope.namespace, q.kind);
    assert r.scope.namespace == q.scope.namespace ==> r.scope.id == q.scope.id;
  }

  /**
   One observation of an accepted configuration asks for three lists per scope, and for no list twice: the
   paths at any two positions differ.
   */
  lemma RequestsDoNotOverlap(table: map<string, string>, scopes: seq<Scope>)
    requires ValidTable(table) && Enumerates(table, scopes)
    ensures |Requests(scopes, KINDS)| == 3 * |table|
    ensures forall i, j | 0 <= i < j < |Requests(scopes, KINDS)| ::
              RequestPath(Requests(scopes, KINDS)[i]) != RequestPath(Requests(scopes, KINDS)[j])
  {
    hide Requests, RequestPath, ValidTable;
    var requests := Requests(scopes, KINDS);
    EnumerationLength(table, scopes);
    ThreePerScope(scopes, KINDS);
    EnumerationIsDistinct(table, scopes);
    KindsAreDistinct();
    RequestsAreDistinct(scopes, KINDS);
    forall i, j | 0 <= i < j < |requests| ensures RequestPath(requests[i]) != RequestPath(requests[j]) {
      RequestPathsIdentify(table, scopes, requests[i], requests[j]);
    }
  }

  lemma KindsAreDistinct()
    ensures |KINDS| == 3 && Distinct(KINDS)
  {
    assert |DEPLOYMENT| == 10 && |STATEFUL_SET| == 11 && |DAEMON_SET| == 9;
  }

  // ------------------------------------------------------------------- health

  /** The first `Ready` condition decides, and a node without one is not ready. */
  predicate NodeReady(conditions: seq<Condition>) {
    conditions != []
    && if conditions[0].typ == "Ready" then conditions[0].status == "True"
       else NodeReady(conditions[1..])
  }

  lemma {:induction false} NodeReadyIsFirst(conditions: seq<Condition>)
    ensures NodeReady(conditions)
       <==> exists i | 0 <= i < |conditions| ::
              && conditions[i].typ == "Ready" && conditions[i].status == "True"
              && forall j | 0 <= j < i :: conditions[j].typ != "Ready"
  {
    if conditions != [] && conditions[0].typ != "Ready" {
      var rest := conditions[1..];
      NodeReadyIsFirst(rest);
      if NodeReady(rest) {
        var i :| 0 <= i < |rest| && rest[i].typ == "Ready" && rest[i].status == "True"
                 && forall j | 0 <= j < i :: rest[j].typ != "Ready";
        assert conditions[i + 1] == rest[i];
        assert forall j | 0 < j < i + 1 :: conditions[j] == rest[j - 1];
      }
      if i :| 0 <= i < |conditions| && conditions[i].typ == "Ready" && conditions[i].status == "True"
              && forall j | 0 <= j < i :: conditions[j].typ != "Ready"
      {
        assert rest[i - 1] == conditions[i];
        assert forall j | 0 <= j < i - 1 :: rest[j] == conditions[j + 1];
      }
    }
  }

  function CountReadyNodes(nodes: seq<Node>): (n: nat)
    ensures n <= |nodes|
  {
    if nodes == [] then 0
    else CountReadyNodes(nodes[..|nodes| - 1]) + if NodeReady(nodes[|nodes| - 1].conditions) then 1 else 0
  }

  /** The first `Ready` condition of the node is `True`. */
  ghost predicate ReadyByFirst(n: Node) {
    exists i | 0 <= i < |n.conditions| ::
      && n.conditions[i].typ == "Ready" && n.conditions[i].status == "True"
      && forall j | 0 <= j < i :: n.conditions[j].typ != "Ready"
  }

  /** The positions of the ready nodes. */
  ghost function ReadyPositions(nodes: seq<Node>): set<int> {
    set i | 0 <= i < |nodes| && ReadyByFirst(nodes[i])
  }

  /** The count is the number of nodes whose first `Ready` condition is `True`. */
  lemma {:induction false} ReadyNodesAreCounted(nodes: seq<Node>)
    ensures CountReadyNodes(nodes) == |ReadyPositions(nodes)|
  {
    if nodes != [] {
      hide ReadyByFirst, NodeReady;
      var n := |nodes| - 1;
      ReadyNodesAreCounted(nodes[..n]);
      NodeReadyByFirst(nodes[n]);
      var before := ReadyPositions(nodes[..n]);
      assert ReadyPositions(nodes) == if ReadyByFirst(nodes[n]) then before + {n} else before;
    }
  }

  lemma NodeReadyByFirst(n: Node)
    ensures NodeReady(n.conditions) <==> ReadyByFirst(n)
  {
    NodeReadyIsFirst(n.conditions);
  }

  function Desired(item: Controller, kind: string): Int64 {
    if kind == DAEMON_SET then item.desiredNumberScheduled
    else if item.replicas.Some? then item.replicas.value
    else 1
  }

  function ReadyCount(item: Controller, kind: string): Int64 {
    if kind == DAEMON_SET then item.numberReady else item.readyReplicas
  }

  predicate Unready(item: Controller, kind: string) {
    ReadyCount(item, kind) < Desired(item, kind)
  }

  // ------------------------------------------------------------------ reasons

  /** The normalised reasons of the conditions that have one, and not-ready if none has. */
  function ReasonSet(conditions: seq<Condition>): set<WorkloadReason> {
    var given := set c | c in conditions && c.reason != "" :: NormalizeWorkloadReason(c.reason);
    if given == {} then {NotReady} else given
  }

  /** The allowlist in the order of its texts. */
  const REASON_ORDER: seq<WorkloadReason> :=
    [NotReady, ProgressDeadline, ReplicaFailure, ReasonUnknown, Unschedulable]

  function Select(order: seq<WorkloadReason>, chosen: set<WorkloadReason>): seq<WorkloadReason> {
    if order == [] then []
    else (if order[0] in chosen then [order[0]] else []) + Select(order[1..], chosen)
  }

  function ReasonsOf(conditions: seq<Condition>): seq<WorkloadReason> {
    Select(REASON_ORDER, ReasonSet(conditions))
  }

  function CompareReasons(a: WorkloadReason, b: WorkloadReason): int {
    Compare(a.Text(), b.Text())
  }

  lemma CompareReasonsIsTotalPreorder()
    ensures TotalPreorder(CompareReasons)
  {
    forall a, b ensures FlipsAt(CompareReasons, a, b) {
      CompareIsAntisymmetric(a.Text(), b.Text());
    }
    forall a, b, c ensures TransitiveAt(CompareReasons, a, b, c) {
      if CompareReasons(a, b) <= 0 && CompareReasons(b, c) <= 0 {
        CompareIsTransitive(a.Text(), b.Text(), c.Text());
      }
    }
  }

  lemma ReasonTextsDiffer(a: WorkloadReason, b: WorkloadReason)
    ensures CompareReasons(a, b) == 0 <==> a == b
  {
    CompareIsAntisymmetric(a.Text(), b.Text());
    ReasonTextLength(a);
    ReasonTextLength(b);
  }

  lemma ReasonTextLength(r: WorkloadReason)
    ensures |r.Text()| == match r {
                            case NotReady => 9
                            case ReplicaFailure => 15
                            case ProgressDeadline => 26
                            case Unschedulable => 13
                            case ReasonUnknown => 7
                          }
  {
  }

  lemma ReasonOrderAscends()
    ensures forall i, j | 0 <= i < j < |REASON_ORDER| :: CompareReasons(REASON_ORDER[i], REASON_ORDER[j]) < 0
  {
    assert CompareReasons(NotReady, ProgressDeadline) < 0;
    assert CompareReasons(NotReady, ReplicaFailure) < 0;
    assert CompareReasons(NotReady, ReasonUnknown) < 0;
    assert CompareReasons(NotReady, Unschedulable) < 0;
    assert CompareReasons(ProgressDeadline, ReplicaFailure) < 0;
    assert CompareReasons(ProgressDeadline, ReasonUnknown) < 0;
    assert CompareReasons(ProgressDeadline, Unschedulable) < 0;
    assert CompareReasons(ReplicaFailure, ReasonUnknown) < 0;
    assert CompareReasons(ReplicaFailure, Unschedulable) < 0;
    assert CompareReasons(ReasonUnknown, Unschedulable) < 0;
  }

  lemma {:induction false} SelectAscends(order: seq<WorkloadReason>, chosen: set<WorkloadReason>)
    requires forall i, j | 0 <= i < j < |order| :: CompareReasons(order[i], order[j]) < 0
    ensures var s := Select(order, chosen);
            && (forall i, j | 0 <= i < j < |s| :: CompareReasons(s[i], s[j]) < 0)
            && (forall r :: r in s <==> r in order && r in chosen)
            && |s| <= |order|
  {
    if order != [] {
      SelectAscends(order[1..], chosen);
      var rest := Select(order[1..], chosen);
      forall r | r in rest ensures CompareReasons(order[0], r) < 0 {
        assert r in order[1..];
      }
    }
  }

  lemma EveryReasonIsOrdered(r: WorkloadReason)
    ensures r in REASON_ORDER
  {
    assert REASON_ORDER[0] == NotReady && REASON_ORDER[1] == ProgressDeadline && REASON_ORDER[2] == ReplicaFailure;
    assert REASON_ORDER[3] == ReasonUnknown && REASON_ORDER[4] == Unschedulable;
  }

  /**
   The reasons of an unready controller form a non-empty, strictly sorted list within the five allowed
   values: the normalised reasons of its conditions, or not-ready alone when no condition has a reason.
   */
  lemma ReasonsAreTheSortedSet(conditions: seq<Condition>)
    ensures var reasons := ReasonsOf(conditions);
            && 1 <= |reasons| <= 5
            && (forall i, j | 0 <= i < j < |reasons| :: CompareReasons(reasons[i], reasons[j]) < 0)
            && (forall r :: r in reasons <==> r in ReasonSet(conditions))
  {
    ReasonOrderAscends();
    SelectAscends(REASON_ORDER, ReasonSet(conditions));
    forall r: WorkloadReason ensures r in REASON_ORDER { EveryReasonIsOrdered(r); }
    var r :| r in ReasonSet(conditions);
    assert r in ReasonsOf(conditions);
  }

  lemma SortedReasonsAreCanonical(conditions: seq<Condition>, reasons: seq<WorkloadReason>, sorted: seq<WorkloadReason>)
    requires Distinct(reasons) && forall r :: r in reasons <==> r in ReasonSet(conditions)
    requires IsSorting(CompareReasons, reasons, sorted)
    ensures sorted == ReasonsOf(conditions)
  {
    var canonical := ReasonsOf(conditions);
    ReasonsAreTheSortedSet(conditions);
    assert Distinct(canonical) && Sorted(CompareReasons, canonical) by {
      forall i, j | 0 <= i < j < |canonical|
        ensures canonical[i] != canonical[j] && CompareReasons(canonical[i], canonical[j]) <= 0
      {
        assert CompareReasons(canonical[i], canonical[j]) < 0;
        ReasonTextsDiffer(canonical[i], canonical[j]);
      }
    }
    DistinctSameMembers(reasons, canonical);
    forall x, y | x in reasons && y in reasons && CompareReasons(x, y) == 0 ensures x == y {
      ReasonTextsDiffer(x, y);
    }
    CompareReasonsIsTotalPreorder();
    TieFreeSortingIsUnique(CompareReasons, reasons, canonical, sorted, canonical);
  }

  /** `controllerHealth`: readiness, the two counts, and the distinct reasons in order. */
  method ControllerHealth(item: Controller, kind: string)
    returns (isReady: bool, ready: Int64, desired: Int64, reasons: seq<WorkloadReason>)
    ensures isReady <==> !Unready(item, kind)
    ensures isReady <==> ready >= desired
    ensures ready == if kind == "DaemonSet" then item.numberReady else item.readyReplicas
    ensures desired == if kind == "DaemonSet" then item.desiredNumberScheduled else item.replicas.GetOr(1)
    ensures ready == ReadyCount(item, kind) && desired == Desired(item, kind)
    ensures reasons == if isReady then [] else ReasonsOf(item.conditions)
  {
    desired := 1;
    ready := item.readyReplicas;
    if item.replicas.Some? {
      desired := item.replicas.value;
    }
    if kind == DAEMON_SET {
      desired := item.desiredNumberScheduled;
      ready := item.numberReady;
    }
    if ready >= desired {
      return true, ready, desired, [];
    }
    reasons := [];
    var seen: set<WorkloadReason> := {};
    for i := 0 to |item.conditions|
      invariant seen == set c | c in item.conditions[..i] && c.reason != "" :: NormalizeWorkloadReason(c.reason)
      invariant forall r :: r in reasons <==> r in seen
      invariant Distinct(reasons)
    {
      var condition := item.conditions[i];
      assert item.conditions[..i + 1] == item.conditions[..i] + [condition];
      if condition.reason != "" {
        var reason := NormalizeWorkloadReason(condition.reason);
        if reason !in seen {
          reasons := reasons + [reason];
        }
        seen := seen + {reason};
      }
    }
    assert item.conditions[..|item.conditions|] == item.conditions;
    if |reasons| == 0 {
      assert forall r :: r !in seen;
      reasons := [NotReady];
    } else {
      assert reasons[0] in seen;
    }
    CompareReasonsIsTotalPreorder();
    var sorted := SortSlice(reasons, CompareReasons);
    SortedReasonsAreCanonical(item.conditions, reasons, sorted);
    return false, ready, desired, sorted;
  }
}
