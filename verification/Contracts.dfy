/**
 The public inputs and outputs of the six tools and the limits that apply to them. Kinds and
 capabilities are enumerations with the text they are encoded as; an instant is a count of
 nanoseconds since 1970 in UTC.
 */
module Contracts {
  import opened Errors

  const MAX_ENCODED_RESULT_BYTES := 64 * 1024
  const MAX_TARGETS := 32
  const DEFAULT_LIST_LIMIT := 20
  const MAX_LIST_LIMIT := 50

  /** Go's `int` on the supported platforms. */
  type Int64 = x: int | -0x8000_0000_0000_0000 <= x < 0x8000_0000_0000_0000

  type Instant = int

  const NANOSECONDS := 1_000_000_000

  /** The first instants of the years 0 and 10000, between which a time can be encoded. */
  const YEAR_ZERO: Instant := -62_167_219_200 * NANOSECONDS
  const YEAR_TEN_THOUSAND: Instant := 253_402_300_800 * NANOSECONDS

  predicate Encodable(t: Instant) {
    YEAR_ZERO <= t < YEAR_TEN_THOUSAND
  }

  predicate MaybeEncodable(t: Option<Instant>) {
    t.Some? ==> Encodable(t.value)
  }

  /** 9999-12-31T23:59:59-01:00, which is in the year 10000 in UTC. */
  const LATE: Instant := YEAR_TEN_THOUSAND + 3599 * NANOSECONDS

  // ------------------------------------------------------------------ targets

  /** A text that is none of the known ones is `OtherKind`. */
  datatype TargetKind = KubernetesKind | MonitoringKind | FluxKind | OtherKind(text: string)
  {
    function Text(): string {
      match this
      case KubernetesKind => "kubernetes"
      case MonitoringKind => "monitoring"
      case FluxKind => "flux"
      case OtherKind(text) => text
    }
  }

  /** A text that is none of the known ones is `OtherCapability`. */
  datatype Capability =
    | ClusterHealthCapability
    | UnhealthyWorkloadsCapability
    | ActiveAlertsCapability
    | ScrapeHealthCapability
    | UnhealthyReconciliationsCapability
    | OtherCapability(text: string)
  {
    function Text(): string {
      match this
      case ClusterHealthCapability => "kubernetes.cluster-health"
      case UnhealthyWorkloadsCapability => "kubernetes.unhealthy-workloads"
      case ActiveAlertsCapability => "monitoring.active-alerts"
      case ScrapeHealthCapability => "monitoring.scrape-health"
      case UnhealthyReconciliationsCapability => "flux.unhealthy-reconciliations"
      case OtherCapability(text) => text
    }
  }

  datatype TargetInfo = TargetInfo(id: string, kind: TargetKind, capabilities: seq<Capability>)

  // ------------------------------------------------------------ cluster health

  datatype HealthStatus = Healthy | Degraded | StatusUnknown
  {
    function Text(): string {
      match this
      case Healthy => "healthy"
      case Degraded => "degraded"
      case StatusUnknown => "unknown"
    }
  }

  datatype WarningCode = NodesNotReady | WorkloadsNotReady | PartialObservation
  {
    function Text(): string {
      match this
      case NodesNotReady => "nodes-not-ready"
      case WorkloadsNotReady => "workloads-not-ready"
      case PartialObservation => "partial-observation"
    }
  }

  datatype HealthWarning = HealthWarning(code: WarningCode, count: int)

  datatype ClusterHealthOutput = ClusterHealthOutput(
    target: string, observedAt: Instant, status: HealthStatus,
    nodesTotal: int, nodesReady: int,
    workloadsTotal: int, workloadsReady: int, workloadsUnhealthy: int,
    warnings: seq<HealthWarning>, partial: bool)

  // ---------------------------------------------------------------- workloads

  /** The input of both scoped list tools. */
  datatype ScopedListInput = ScopedListInput(target: string, scope: string, limit: int)

  const DEPLOYMENT := "Deployment"
  const STATEFUL_SET := "StatefulSet"
  const DAEMON_SET := "DaemonSet"

  datatype WorkloadReason = NotReady | ReplicaFailure | ProgressDeadline | Unschedulable | ReasonUnknown
  {
    function Text(): string {
      match this
      case NotReady => "not-ready"
      case ReplicaFailure => "replica-failure"
      case ProgressDeadline => "progress-deadline-exceeded"
      case Unschedulable => "unschedulable"
      case ReasonUnknown => "unknown"
    }
  }

  datatype WorkloadHealth = WorkloadHealth(
    scope: string, kind: string, name: string, ready: Int64, desired: Int64, reasons: seq<WorkloadReason>)

  datatype WorkloadsOutput = WorkloadsOutput(
    target: string, observedAt: Instant, workloads: seq<WorkloadHealth>, truncated: bool)

  // --------------------------------------------------------------- monitoring

  datatype AlertsInput = AlertsInput(target: string, limit: int)

  datatype AlertSeverity = Critical | Warning | Info | SeverityUnknown
  {
    function Text(): string {
      match this
      case Critical => "critical"
      case Warning => "warning"
      case Info => "info"
      case SeverityUnknown => "unknown"
    }
  }

  /** An empty component is omitted from the encoding. */
  datatype ActiveAlert = ActiveAlert(
    name: string, severity: AlertSeverity, component: string, startedAt: Option<Instant>)

  datatype AlertsOutput = AlertsOutput(
    target: string, observedAt: Instant, alerts: seq<ActiveAlert>, truncated: bool)

  datatype ScrapeState = Up | Down | Missing
  {
    function Text(): string {
      match this
      case Up => "up"
      case Down => "down"
      case Missing => "missing"
    }
  }

  datatype ScrapeHealth = ScrapeHealth(id: string, state: ScrapeState, sampledAt: Option<Instant>)

  datatype ScrapesOutput = ScrapesOutput(
    target: string, observedAt: Instant, scrapes: seq<ScrapeHealth>, partial: bool)

  // --------------------------------------------------------------------- flux

  const KUSTOMIZATION := "Kustomization"
  const HELM_RELEASE := "HelmRelease"
  const GIT_REPOSITORY := "GitRepository"

  datatype ReadinessState = ReadinessFalse | ReadinessUnknown
  {
    function Text(): string {
      match this
      case ReadinessFalse => "false"
      case ReadinessUnknown => "unknown"
    }
  }

  datatype ReconciliationReason =
    | DependencyNotReady
    | HealthCheckFailed
    | ReconciliationFailed
    | ArtifactFailed
    | AuthenticationFailed
    | SourceNotAvailable
    | Suspended
    | OtherReason
  {
    function Text(): string {
      match this
      case DependencyNotReady => "dependency-not-ready"
      case HealthCheckFailed => "health-check-failed"
      case ReconciliationFailed => "reconciliation-failed"
      case ArtifactFailed => "artifact-failed"
      case AuthenticationFailed => "authentication-failed"
      case SourceNotAvailable => "source-unavailable"
      case Suspended => "suspended"
      case OtherReason => "unknown"
    }
  }

  datatype Reconciliation = Reconciliation(
    scope: string, kind: string, name: string, state: ReadinessState, reason: ReconciliationReason,
    transitionedAt: Option<Instant>)

  datatype ReconciliationsOutput = ReconciliationsOutput(
    target: string, observedAt: Instant, reconciliations: seq<Reconciliation>, truncated: bool)
}
