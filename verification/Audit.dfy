/**
 The audit log: what one event says of a call, and how concurrent calls share the log.
 */
module Audit {
  import opened Text
  import opened Errors
  import opened Contracts
  import opened ToolErrors

  datatype ToolName =
    | ListTargetsTool
    | ClusterHealthTool
    | UnhealthyWorkloadsTool
    | ActiveAlertsTool
    | ScrapeHealthTool
    | UnhealthyReconciliationsTool
    | UnknownTool
  {
    function Text(): string {
      match this
      case ListTargetsTool => "observer_list_targets"
      case ClusterHealthTool => "kubernetes_get_cluster_health"
      case UnhealthyWorkloadsTool => "kubernetes_list_unhealthy_workloads"
      case ActiveAlertsTool => "monitoring_list_active_alerts"
      case ScrapeHealthTool => "monitoring_get_scrape_health"
      case UnhealthyReconciliationsTool => "flux_list_unhealthy_reconciliations"
      case UnknownTool => "unknown"
    }
  }

  /** What decoding the arguments of a call gives. */
  datatype Arguments = Undecodable | Decoded(target: string, scope: string)

  /** The parameters of a request; a name that is none of the six is `UnknownTool`. */
  datatype Parameters = OtherParameters | Call(tool: ToolName, arguments: Arguments)

  /** What the audit log reads off an output decoded as the type of a tool. */
  datatype Summary = Summary(items: nat, partial: bool, truncated: bool)

  /** The structured content of a result; raw content may or may not decode as the output of a tool. */
  datatype Content = NotRaw | Raw(decode: ToolName -> Option<Summary>)

  datatype CallResult = Failed | OtherResult | ToolResult(error: Option<Error>, isError: bool, content: Content)

  datatype ContextState = Live | Canceled | DeadlineExceeded

  /** One request as the middleware sees it, from its start to its finish. */
  datatype Exchange = Exchange(
    parameters: Parameters, startedAt: Instant, finishedAt: Instant, context: ContextState, result: CallResult)

  datatype Event = Event(
    timestamp: Instant, schemaVersion: int, tool: ToolName, target: string, scope: string,
    durationMS: int, outcome: Outcome,
    itemCount: Option<int>, partial: Option<bool>, truncated: Option<bool>)

  const SCHEMA_VERSION := 1

  // ------------------------------------------------------------ specification

  predicate Known(p: Parameters) {
    p.Call? && !p.tool.UnknownTool?
  }

  function ToolOf(p: Parameters): ToolName {
    if p.Call? then p.tool else UnknownTool
  }

  /** The arguments the log looks at: none for the discovery tool or for a tool it does not know. */
  function ArgumentsOf(p: Parameters): Arguments {
    if Known(p) && !p.tool.ListTargetsTool? then p.arguments else Undecodable
  }

  function IdentifierOrEmpty(text: string): string {
    if Identifier(text) then text else ""
  }

  /** `auditOutcome`. */
  function AuditOutcome(context: ContextState, known: bool, result: CallResult): Outcome {
    if !context.Live? then AuditCanceled
    else if !known then AuditUnsupportedTool
    else
      match result
      case Failed => AuditInternalError
      case OtherResult => AuditInternalError
      case ToolResult(error, isError, _) =>
        if error.None? then (if isError then AuditInternalError else AuditSuccess)
        else ToolErrorOutcome(error.value)
  }

  /** `time.Time.Sub`, which saturates. */
  function Elapsed(startedAt: Instant, finishedAt: Instant): Int64 {
    var d: int := finishedAt - startedAt;
    if d > 0x7FFF_FFFF_FFFF_FFFF then 0x7FFF_FFFF_FFFF_FFFF
    else if d < -0x8000_0000_0000_0000 then -0x8000_0000_0000_0000
    else d
  }

  /** `Duration.Milliseconds`: division that drops the remainder on either side of zero. */
  function Milliseconds(d: int): int {
    if d < 0 then -(-d / 1_000_000) else d / 1_000_000
  }

  function Max(a: int, b: int): int {
    if a >= b then a else b
  }

  predicate CountsItems(tool: ToolName) {
    !tool.ClusterHealthTool? && !tool.UnknownTool?
  }

  predicate FlagsPartial(tool: ToolName) {
    tool.ClusterHealthTool? || tool.ScrapeHealthTool?
  }

  predicate FlagsTruncated(tool: ToolName) {
    tool.UnhealthyWorkloadsTool? || tool.ActiveAlertsTool? || tool.UnhealthyReconciliationsTool?
  }

  /** What a result says to the log, if its content decodes as the output of the tool. */
  function SummaryOf(tool: ToolName, result: CallResult): Option<Summary> {
    if result.ToolResult? && result.content.Raw? then result.content.decode(tool) else None
  }

  /** The event of an exchange, field by field. */
  function EventOf(x: Exchange): Event {
    var tool := ToolOf(x.parameters);
    var arguments := ArgumentsOf(x.parameters);
    var outcome := AuditOutcome(x.context, Known(x.parameters), x.result);
    var named := arguments.Decoded? && !outcome.AuditValidationError? && !outcome.AuditUnsupportedTool?;
    var summary := if outcome.AuditSuccess? then SummaryOf(tool, x.result) else None;
    Event(
      x.finishedAt, SCHEMA_VERSION, tool,
      if named then IdentifierOrEmpty(arguments.target) else "",
      if named then IdentifierOrEmpty(arguments.scope) else "",
      Max(Milliseconds(Elapsed(x.startedAt, x.finishedAt)), 0),
      outcome,
      if summary.Some? && CountsItems(tool) then Some(summary.value.items) else None,
      if summary.Some? && FlagsPartial(tool) then Some(summary.value.partial) else None,
      if summary.Some? && FlagsTruncated(tool) then Some(summary.value.truncated) else None)
  }

  // ------------------------------------------------------------------ methods

  /** `auditRequest`. */
  method AuditRequest(p: Parameters) returns (event: Event, known: bool)
    ensures known == Known(p)
    ensures event.tool == ToolOf(p)
    ensures ArgumentsOf(p).Undecodable? ==> event.target == "" && event.scope == ""
    ensures ArgumentsOf(p).Decoded? ==> event.target == IdentifierOrEmpty(ArgumentsOf(p).target)
    ensures ArgumentsOf(p).Decoded? ==> event.scope == IdentifierOrEmpty(ArgumentsOf(p).scope)
    ensures event.itemCount.None? && event.partial.None? && event.truncated.None?
  {
    event := Event(0, 0, UnknownTool, "", "", 0, AuditSuccess, None, None, None);
    if p.OtherParameters? {
      return event, false;
    }
    match p.tool {
      case ListTargetsTool =>
        event := event.(tool := ListTargetsTool);
        return event, true;
      case UnknownTool =>
        return event, false;
      case _ =>
        event := event.(tool := p.tool);
    }
    if p.arguments.Undecodable? {
      return event, true;
    }
    if Identifier(p.arguments.target) {
      event := event.(target := p.arguments.target);
    }
    if p.arguments.scope != "" && Identifier(p.arguments.scope) {
      event := event.(scope := p.arguments.scope);
    }
    return event, true;
  }

  /** `addAuditResult`. */
  method AddAuditResult(before: Event, result: CallResult) returns (event: Event)
    requires before.itemCount.None? && before.partial.None? && before.truncated.None?
    ensures var summary := SummaryOf(before.tool, result);
            event == before.(
              itemCount := if summary.Some? && CountsItems(before.tool) then Some(summary.value.items) else None,
              partial := if summary.Some? && FlagsPartial(before.tool) then Some(summary.value.partial) else None,
              truncated := if summary.Some? && FlagsTruncated(before.tool) then Some(summary.value.truncated) else None)
  {
    event := before;
    if !result.ToolResult? || !result.content.Raw? {
      return;
    }
    var output := result.content.decode(event.tool);
    if output.None? {
      return;
    }
    match event.tool {
      case ListTargetsTool =>
        event := event.(itemCount := Some(output.value.items));
      case ClusterHealthTool =>
        event := event.(partial := Some(output.value.partial));
      case ScrapeHealthTool =>
        event := event.(itemCount := Some(output.value.items));
        event := event.(partial := Some(output.value.partial));
      case UnknownTool =>
      case _ =>
        event := event.(itemCount := Some(output.value.items));
        event := event.(truncated := Some(output.value.truncated));
    }
  }

  /** The middleware around one call, up to the write. */
  method Observe(x: Exchange) returns (event: Event)
    ensures event == EventOf(x)
  {
    var known;
    event, known := AuditRequest(x.parameters);
    event := event.(timestamp := x.finishedAt);
    event := event.(schemaVersion := SCHEMA_VERSION);
    event := event.(durationMS := Max(Milliseconds(Elapsed(x.startedAt, x.finishedAt)), 0));
    event := event.(outcome := AuditOutcome(x.context, known, x.result));
    if event.outcome.AuditValidationError? || event.outcome.AuditUnsupportedTool? {
      event := event.(target := "");
      event := event.(scope := "");
    }
    if event.outcome.AuditSuccess? {
      event := AddAuditResult(event, x.result);
    }
  }

  // ------------------------------------------------------------- main results

  /** What schema version 1 promises of every event. */
  predicate WellFormed(e: Event) {
    && e.schemaVersion == 1
    && (e.target == "" || Identifier(e.target)) && (e.scope == "" || Identifier(e.scope))
    && (e.outcome.AuditValidationError? || e.outcome.AuditUnsupportedTool? ==> e.target == "" && e.scope == "")
    && (e.tool.ListTargetsTool? || e.tool.UnknownTool? ==> e.target == "" && e.scope == "")
    && (e.tool.UnknownTool? ==> e.outcome.AuditUnsupportedTool? || e.outcome.AuditCanceled?)
    && (e.outcome.AuditUnsupportedTool? ==> e.tool.UnknownTool?)
    && e.durationMS >= 0
    && (e.itemCount.Some? ==> e.outcome.AuditSuccess? && CountsItems(e.tool) && e.itemCount.value >= 0)
    && (e.partial.Some? ==> e.outcome.AuditSuccess? && FlagsPartial(e.tool))
    && (e.truncated.Some? ==> e.outcome.AuditSuccess? && FlagsTruncated(e.tool))
  }

  lemma EventsAreWellFormed(x: Exchange)
    ensures WellFormed(EventOf(x))
  {
    hide ToolErrorOutcome, Identifier;
    if x.result.ToolResult? && x.result.error.Some? {
      ToolErrorsNeverSucceed(x.result.error.value);
    }
  }

  /** The arguments of a call of a known tool other than discovery, if they decode. */
  predicate Names(x: Exchange, target: string, scope: string) {
    && x.parameters.Call? && x.parameters.tool != UnknownTool && x.parameters.tool != ListTargetsTool
    && x.parameters.arguments == Decoded(target, scope)
  }

  /**
   What an event says, on the exchange alone: when it ended, which tool, and how; its identifiers are those of
   the arguments that are identifiers, unless input validation failed under a live context.
   */
  lemma EventTellsExchange(x: Exchange)
    ensures var e := EventOf(x);
            && e.timestamp == x.finishedAt && e.schemaVersion == 1
            && e.tool == (if x.parameters.Call? then x.parameters.tool else UnknownTool)
            && (e.outcome.AuditCanceled? <== x.context != Live)
            && (e.outcome.AuditUnsupportedTool? <==> x.context == Live && e.tool == UnknownTool)
            && (e.outcome.AuditSuccess? <==>
                  && x.context == Live && e.tool != UnknownTool
                  && x.result.ToolResult? && x.result.error.None? && !x.result.isError)
            && (x.context == Live && e.tool != UnknownTool
                && (!x.result.ToolResult? || (x.result.error.None? && x.result.isError)) ==>
                  e.outcome.AuditInternalError?)
            && (x.context == Live && e.tool != UnknownTool && x.result.ToolResult? && x.result.error.Some? ==>
                  e.outcome == ToolErrorOutcome(x.result.error.value))
    ensures forall target, scope | Names(x, target, scope) && !EventOf(x).outcome.AuditValidationError? ::
              && EventOf(x).target == (if Identifier(target) then target else "")
              && EventOf(x).scope == (if Identifier(scope) then scope else "")
  {
    hide ToolErrorOutcome, Identifier;
    if x.result.ToolResult? && x.result.error.Some? {
      ToolErrorsNeverSucceed(x.result.error.value);
    }
  }

  /** A result of a tool whose content decodes as the output of that tool. */
  predicate Returned(x: Exchange, tool: ToolName, summary: Summary) {
    && x.context == Live && x.parameters.Call? && x.parameters.tool == tool
    && x.result.ToolResult? && x.result.error.None? && !x.result.isError
    && x.result.content.Raw? && x.result.content.decode(tool) == Some(summary)
  }

  /** What a successful event adds for each of the six tools. */
  lemma EventCountsResult(x: Exchange, tool: ToolName, summary: Summary)
    requires Returned(x, tool, summary) && tool != UnknownTool
    ensures var e := EventOf(x);
            var items, partial, truncated := Some(summary.items), Some(summary.partial), Some(summary.truncated);
            && e.outcome.AuditSuccess?
            && (e.itemCount, e.partial, e.truncated)
               == match tool
                  case ListTargetsTool => (items, None, None)
                  case ClusterHealthTool => (None, partial, None)
                  case UnhealthyWorkloadsTool => (items, None, truncated)
                  case ActiveAlertsTool => (items, None, truncated)
                  case ScrapeHealthTool => (items, partial, None)
                  case _ => (items, None, truncated)
  {
    hide ToolErrorOutcome, Identifier;
  }

  /** The duration is the elapsed time in whole milliseconds, unless the clock went back or the time overflows. */
  lemma DurationIsElapsed(x: Exchange)
    ensures var ms, d := EventOf(x).durationMS, x.finishedAt - x.startedAt;
            && (d <= 0 ==> ms == 0)
            && (0 <= d < 0x8000_0000_0000_0000 ==> ms * 1_000_000 <= d < (ms + 1) * 1_000_000)
            && (d >= 0x8000_0000_0000_0000 ==> ms == 9_223_372_036_854)
  {
    hide AuditOutcome, Identifier;
  }

  /**
   A call of a known tool that ends in a source error under a live context: the outcome is the category of
   the error's first match, and the identifiers are left out exactly if the tree has a validation error.
   */
  lemma SourceErrorEvent(x: Exchange, err: Error, isError: bool, content: Content)
    requires x.context.Live? && Known(x.parameters)
    requires x.result == ToolResult(Some(SafeToolError(err)), isError, content)
    ensures var e := EventOf(x);
            && (e.outcome.AuditValidationError? <==> HasValidation(err))
            && (!HasValidation(err) && NoMatch(err) ==> e.outcome.AuditInternalError?)
            && (forall s | !HasValidation(err) && FirstMatch(err, s) :: e.outcome == Category(s))
            && (HasValidation(err) ==> e.target == "" && e.scope == "")
            && (!HasValidation(err) && ArgumentsOf(x.parameters).Decoded? ==>
                  e.target == IdentifierOrEmpty(ArgumentsOf(x.parameters).target) &&
                  e.scope == IdentifierOrEmpty(ArgumentsOf(x.parameters).scope))
            && e.itemCount.None? && e.partial.None? && e.truncated.None?
  {
    hide ToolErrorOutcome, SafeToolError, FirstMatch, NoMatch, Category, Identifier;
    OutcomeIsCategoryOfFirstMatch(err);
    ToolErrorsNeverSucceed(SafeToolError(err));
  }

  /**
   Exactly when the identifiers of a call that fails input validation are left out: when its context is
   live. A call whose context is over counts as canceled first, and keeps what identifiers it names. The
   error may be a handler's validation error or one made before any handler ran, of which nothing is known.
   */
  lemma ValidationFailureOmitsIdentifiersIffLive(x: Exchange, err: Error, isError: bool, content: Content)
    requires ArgumentsOf(x.parameters).Decoded? && ToolErrorOutcome(err).AuditValidationError?
    requires Identifier(ArgumentsOf(x.parameters).target) || Identifier(ArgumentsOf(x.parameters).scope)
    requires x.result == ToolResult(Some(err), isError, content)
    ensures EventOf(x).target == "" && EventOf(x).scope == "" <==> x.context.Live?
    ensures !x.context.Live? ==> EventOf(x).outcome.AuditCanceled?
  {
    hide ToolErrorOutcome;
  }

  /** Such a call: a limit refused by the input schema, on a call canceled meanwhile, leaves the target in the log. */
  lemma CanceledValidationFailureKeepsTarget(
    startedAt: Instant, finishedAt: Instant, text: string, isError: bool, content: Content)
    ensures ToolErrorOutcome(Plain(text)).AuditValidationError?
    ensures var e := EventOf(Exchange(
              Call(ActiveAlertsTool, Decoded("prod", "")), startedAt, finishedAt, Canceled,
              ToolResult(Some(Plain(text)), isError, content)));
            e.target == "prod" && e.outcome.AuditCanceled?
  {
    hide ToolErrorOutcome;
    UnknownErrorsAreValidationFailures(Plain(text));
    assert Identifier("prod");
  }

  lemma ToolErrorsNeverSucceed(err: Error)
    ensures !ToolErrorOutcome(err).AuditSuccess? && !ToolErrorOutcome(err).AuditUnsupportedTool?
  {
    hide Is, FindValidation;
  }
}
