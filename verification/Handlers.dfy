/**
 The tool handlers: normalise the input, dispatch, observe, check the size, and let out safe errors only.
 */
module Handlers {
  import opened Errors
  import opened Contracts
  import opened Policy
  import opened Encoding
  import opened Catalogs
  import opened Servers
  import opened ToolErrors
  import opened Audit
  import Kubernetes
  import KubernetesClient
  import Flux
  import Monitoring
  import Scrapes

  /**
   The five dispatching handlers differ in their input, table and result type only. `invalid` is what
   validation or normalisation of the input says, `observe` what the source answers, and `oversized`
   what the size check says.
   */
  function Handle<S, O>(
    invalid: Option<Error>, table: map<string, S>, target: string,
    observe: S -> Result<O>, oversized: O -> Option<Error>): Result<O>
  {
    if invalid.Some? then Err(SafeToolError(invalid.value))
    else if target !in table then Err(Value(TargetNotConfigured))
    else
      var output := observe(table[target]);
      if output.Err? then Err(SafeToolError(output.error))
      else
        var problem := oversized(output.value);
        if problem.Some? then Err(SafeToolError(problem.value)) else output
  }

  /** A result comes from the only source with the target's identifier, for valid input and within the size limit. */
  lemma ResultComesFromOnlySource<O>(
    configured: SourceSet, contents: map<string, TargetInfo>, capability: Capability,
    invalid: Option<Error>, target: string, observe: Source -> Result<O>, oversized: O -> Option<Error>, output: O)
    requires AcceptedSources(configured) && Catalogues(contents, TargetsOf(AllSources(configured)))
    ensures Handle(invalid, Dispatch(configured, capability), target, observe, oversized) == Ok(output)
       <==> && invalid.None? && target in contents && capability in contents[target].capabilities
            && oversized(output).None?
            && exists s :: OnlySource(configured, s, target) && observe(s) == Ok(output)
  {
    hide SafeToolError, AcceptedSources, Catalogues, Dispatch;
    DispatchAgreesWithInventory(configured, contents, capability, target);
    var table := Dispatch(configured, capability);
    if target in table {
      forall s | OnlySource(configured, s, target) ensures s == table[target] {
      }
    }
  }

  /**
   A valid call is refused as "not configured" exactly when the inventory does not advertise the tool's
   capability for the target, whatever the sources answer; and no call lets out an error that is not public.
   */
  lemma NotConfiguredIffNotAdvertised<O>(
    configured: SourceSet, contents: map<string, TargetInfo>, capability: Capability,
    invalid: Option<Error>, target: string, observe: Source -> Result<O>, oversized: O -> Option<Error>)
    requires AcceptedSources(configured) && Catalogues(contents, TargetsOf(AllSources(configured)))
    ensures var r := Handle(invalid, Dispatch(configured, capability), target, observe, oversized);
            && (r.Err? ==> Public(r.error))
            && (r == Err(Value(TargetNotConfigured)) <==>
                invalid.None? && !(target in contents && capability in contents[target].capabilities))
  {
    hide SafeToolError, AcceptedSources, Catalogues, Dispatch, OnlySource;
    var table := Dispatch(configured, capability);
    DispatchAgreesWithInventory(configured, contents, capability, target);
    if invalid.Some? {
      SafeErrorsArePublic(invalid.value);
    } else if target in table {
      var output := observe(table[target]);
      if output.Err? {
        SafeErrorsArePublic(output.error);
      } else if oversized(output.value).Some? {
        SafeErrorsArePublic(oversized(output.value).value);
      }
    }
  }

  /** The result of the call: the error is kept beside the text that clients see. */
  function Respond<O>(r: Result<O>, content: O -> Content): CallResult {
    if r.Err? then ToolResult(Some(r.error), true, NotRaw) else ToolResult(None, false, content(r.value))
  }

  /**
   The event of a handled call under a live context: success exactly for a result, "target not configured"
   exactly for valid input and a target that the inventory does not advertise the capability for.
   */
  lemma HandledCallEvent<O>(
    configured: SourceSet, contents: map<string, TargetInfo>, capability: Capability,
    invalid: Option<Error>, target: string, observe: Source -> Result<O>, oversized: O -> Option<Error>,
    content: O -> Content, x: Exchange)
    requires AcceptedSources(configured) && Catalogues(contents, TargetsOf(AllSources(configured)))
    requires x.context.Live? && Known(x.parameters)
    requires x.result == Respond(Handle(invalid, Dispatch(configured, capability), target, observe, oversized), content)
    ensures var r := Handle(invalid, Dispatch(configured, capability), target, observe, oversized);
            var outcome := EventOf(x).outcome;
            && (outcome.AuditSuccess? <==> r.Ok?)
            && (outcome.AuditValidationError? <==> r.Err? && r.error.Validation?)
            && (outcome.AuditTargetNotConfigured? <==>
                invalid.None? && !(target in contents && capability in contents[target].capabilities))
  {
    hide AcceptedSources, Catalogues, Dispatch, Handle, ToolErrorOutcome, Public;
    NotConfiguredIffNotAdvertised(configured, contents, capability, invalid, target, observe, oversized);
    var r := Handle(invalid, Dispatch(configured, capability), target, observe, oversized);
    if r.Err? {
      PublicOutcomes(r.error);
    }
  }

  /** A source's error comes out as the category of its first match, whichever tool and source. */
  lemma SourceErrorIsAudited<O>(
    configured: SourceSet, contents: map<string, TargetInfo>, capability: Capability, target: string, source: Source,
    observe: Source -> Result<O>, oversized: O -> Option<Error>, content: O -> Content, x: Exchange)
    requires AcceptedSources(configured) && Catalogues(contents, TargetsOf(AllSources(configured)))
    requires target in contents && capability in contents[target].capabilities
    requires OnlySource(configured, source, target) && observe(source).Err?
    requires x.context.Live? && Known(x.parameters)
    requires x.result == Respond(Handle(None, Dispatch(configured, capability), target, observe, oversized), content)
    ensures var err, outcome := observe(source).error, EventOf(x).outcome;
            && (outcome.AuditValidationError? <==> HasValidation(err))
            && (!HasValidation(err) && NoMatch(err) ==> outcome.AuditInternalError?)
            && (forall s | !HasValidation(err) && FirstMatch(err, s) :: outcome == Category(s))
  {
    hide AcceptedSources, Catalogues, Dispatch, ToolErrorOutcome, SafeToolError, FirstMatch, NoMatch, Category;
    DispatchAgreesWithInventory(configured, contents, capability, target);
    OutcomeIsCategoryOfFirstMatch(observe(source).error);
  }

  lemma PublicOutcomes(err: Error)
    requires Public(err)
    ensures !ToolErrorOutcome(err).AuditSuccess?
    ensures ToolErrorOutcome(err).AuditValidationError? <==> err.Validation?
    ensures ToolErrorOutcome(err).AuditTargetNotConfigured? <==> err == Value(TargetNotConfigured)
  {
    hide ToolErrorOutcome;
    PublicErrorOutcome(err);
  }

  // -------------------------------------------------------------- result size

  function SizeCheck<O>(encode: O -> Option<string>): O -> Option<Error> {
    out => CheckResultSize(encode(out))
  }

  /** The handler's second size check never fails on an answer that fits, and its outcome never occurs. */
  lemma FittingCallsAreNeverTooLarge<S, O>(
    invalid: Option<Error>, table: map<string, S>, target: string, observe: S -> Result<O>,
    encode: O -> Option<string>, content: O -> Content, x: Exchange)
    requires invalid.Some? ==> !Is(invalid.value, ResultTooLarge)
    requires target in table && invalid.None? ==> Fits(observe(table[target]), encode)
    requires x.result == Respond(Handle(invalid, table, target, observe, SizeCheck(encode)), content)
    ensures Handle(invalid, table, target, observe, SizeCheck(encode)) != Err(Value(ResultTooLarge))
    ensures !EventOf(x).outcome.AuditResultTooLarge?
  {
    hide SafeToolError, ToolErrorOutcome, Public, CheckResultSize;
    var r := Handle(invalid, table, target, observe, SizeCheck(encode));
    if invalid.Some? {
      OtherErrorsAreNotTooLarge(invalid.value);
    } else if target in table && observe(table[target]).Err? {
      OtherErrorsAreNotTooLarge(observe(table[target]).error);
    } else if target !in table {
      NotConfiguredIsPublic();
    }
    if r.Err? {
      TooLargeOutcome(r.error);
    }
  }

  lemma OtherErrorsAreNotTooLarge(err: Error)
    requires !Is(err, ResultTooLarge)
    ensures Public(SafeToolError(err)) && SafeToolError(err) != Value(ResultTooLarge)
  {
    hide Is, FindValidation;
    SafeErrorsArePublic(err);
  }

  lemma NotConfiguredIsPublic()
    ensures Public(Value(TargetNotConfigured))
  {
  }

  lemma TooLargeOutcome(err: Error)
    requires Public(err) && err != Value(ResultTooLarge)
    ensures !ToolErrorOutcome(err).AuditResultTooLarge?
  {
    hide ToolErrorOutcome;
    PublicErrorOutcome(err);
  }

  /**
   With the real clients behind the tables, result_too_large is never audited: not for the workload list,
   whatever the sources answer.
   */
  lemma WorkloadCallsAreNeverTooLarge(
    clients: map<string, KubernetesClient.Client>, source: Kubernetes.Source, input: ScopedListInput, now: Instant,
    format: Instant -> string, observe: KubernetesClient.Client -> Result<WorkloadsOutput>,
    content: WorkloadsOutput -> Content, x: Exchange)
    requires Rfc3339(format) && KubernetesClient.RequestErrorsFit(source)
    requires var n := NormalizeWorkloadsInput(input);
             n.Ok? && n.value.target in clients ==>
               var c := clients[n.value.target]; c.Valid() && c.AnswersList(source, n.value, now, observe(c))
    requires var n := NormalizeWorkloadsInput(input);
             x.result == Respond(
               Handle(ErrorOf(n), clients, input.target, observe,
                      SizeCheck((out: WorkloadsOutput) => MarshalWorkloads(out, format))), content)
    ensures !EventOf(x).outcome.AuditResultTooLarge?
  {
    hide EventOf, Respond, Handle, Rfc3339, KubernetesClient.RequestErrorsFit, SizeCheck;
    var n := NormalizeWorkloadsInput(input);
    var encode := (out: WorkloadsOutput) => MarshalWorkloads(out, format);
    if n.Ok? && input.target in clients {
      var c := clients[input.target];
      KubernetesClient.ListAnswersFit(c, source, n.value, now, format, observe(c));
    }
    FittingCallsAreNeverTooLarge(ErrorOf(n), clients, input.target, observe, encode, content, x);
  }

  /** Nor for the cluster totals. */
  lemma TotalsCallsAreNeverTooLarge(
    clients: map<string, KubernetesClient.Client>, source: Kubernetes.Source, target: string, now: Instant,
    format: Instant -> string, observe: KubernetesClient.Client -> Result<ClusterHealthOutput>,
    content: ClusterHealthOutput -> Content, x: Exchange)
    requires Rfc3339(format) && KubernetesClient.RequestErrorsFit(source) && KubernetesClient.BoundedSource(source)
    requires var invalid := ValidateIdentifier("target", target);
             invalid.None? && target in clients ==>
               var c := clients[target]; c.Valid() && c.AnswersTotals(source, now, observe(c))
    requires var invalid := ValidateIdentifier("target", target);
             x.result == Respond(
               Handle(invalid, clients, target, observe,
                      SizeCheck((out: ClusterHealthOutput) => MarshalClusterHealth(out, format))), content)
    ensures !EventOf(x).outcome.AuditResultTooLarge?
  {
    hide EventOf, Respond, Handle, Rfc3339, SizeCheck;
    hide KubernetesClient.RequestErrorsFit, KubernetesClient.BoundedSource;
    var invalid := ValidateIdentifier("target", target);
    var encode := (out: ClusterHealthOutput) => MarshalClusterHealth(out, format);
    if invalid.None? && target in clients {
      var c := clients[target];
      KubernetesClient.TotalsAnswersFit(c, source, now, format, observe(c));
    }
    FittingCallsAreNeverTooLarge(invalid, clients, target, observe, encode, content, x);
  }

  /** Nor for the Flux list. */
  lemma ReconciliationCallsAreNeverTooLarge(
    clients: map<string, Flux.Client>, source: Flux.Source, input: ScopedListInput, now: Instant,
    format: Instant -> string, observe: Flux.Client -> Result<ReconciliationsOutput>,
    content: ReconciliationsOutput -> Content, x: Exchange)
    requires Rfc3339(format) && Flux.RequestErrorsFit(source)
    requires var n := NormalizeReconciliationsInput(input);
             n.Ok? && input.target in clients ==>
               var c := clients[input.target]; c.Valid() && c.Answers(source, n.value, now, observe(c))
    requires var n := NormalizeReconciliationsInput(input);
             x.result == Respond(
               Handle(ErrorOf(n), clients, input.target, observe,
                      SizeCheck((out: ReconciliationsOutput) => MarshalReconciliations(out, format))), content)
    ensures !EventOf(x).outcome.AuditResultTooLarge?
  {
    hide EventOf, Respond, Handle, Rfc3339, Flux.RequestErrorsFit, SizeCheck;
    var n := NormalizeReconciliationsInput(input);
    var encode := (out: ReconciliationsOutput) => MarshalReconciliations(out, format);
    if n.Ok? && input.target in clients {
      var c := clients[input.target];
      Flux.AnswersFit(c, source, n.value, now, format, observe(c));
    }
    FittingCallsAreNeverTooLarge(ErrorOf(n), clients, input.target, observe, encode, content, x);
  }

  /** Nor for the alert list. */
  lemma AlertCallsAreNeverTooLarge(
    clients: map<string, Monitoring.Client>, reply: Monitoring.AlertsReply, input: AlertsInput, now: Instant,
    format: Instant -> string, observe: Monitoring.Client -> Result<AlertsOutput>,
    content: AlertsOutput -> Content, x: Exchange)
    requires Rfc3339(format) && (reply.AlertsFailed? ==> !Is(reply.error, ResultTooLarge))
    requires var n := NormalizeAlertsInput(input);
             n.Ok? && input.target in clients ==>
               var c := clients[input.target]; c.Valid() && c.AnswersAlerts(reply, n.value, now, observe(c))
    requires var n := NormalizeAlertsInput(input);
             x.result == Respond(
               Handle(ErrorOf(n), clients, input.target, observe,
                      SizeCheck((out: AlertsOutput) => MarshalAlerts(out, format))), content)
    ensures !EventOf(x).outcome.AuditResultTooLarge?
  {
    hide EventOf, Respond, Handle, Rfc3339, SizeCheck;
    var n := NormalizeAlertsInput(input);
    var encode := (out: AlertsOutput) => MarshalAlerts(out, format);
    if n.Ok? && input.target in clients {
      var c := clients[input.target];
      Monitoring.AlertsAnswersFit(c, reply, n.value, now, format, observe(c));
    }
    FittingCallsAreNeverTooLarge(ErrorOf(n), clients, input.target, observe, encode, content, x);
  }

  /** Nor for the scrape health. */
  lemma ScrapeCallsAreNeverTooLarge(
    clients: map<string, Monitoring.Client>, reply: Scrapes.QueryReply, target: string, now: Instant,
    format: Instant -> string, observe: Monitoring.Client -> Result<ScrapesOutput>,
    content: ScrapesOutput -> Content, x: Exchange)
    requires Rfc3339(format) && (reply.QueryFailed? ==> !Is(reply.error, ResultTooLarge))
    requires var invalid := ValidateIdentifier("target", target);
             invalid.None? && target in clients ==>
               var c := clients[target]; c.Valid() && c.AnswersScrapes(reply, target, now, observe(c))
    requires var invalid := ValidateIdentifier("target", target);
             x.result == Respond(
               Handle(invalid, clients, target, observe,
                      SizeCheck((out: ScrapesOutput) => MarshalScrapes(out, format))), content)
    ensures !EventOf(x).outcome.AuditResultTooLarge?
  {
    hide EventOf, Respond, Handle, Rfc3339, SizeCheck;
    var invalid := ValidateIdentifier("target", target);
    var encode := (out: ScrapesOutput) => MarshalScrapes(out, format);
    if invalid.None? && target in clients {
      var c := clients[target];
      Monitoring.ScrapesAnswersFit(c, reply, target, now, format, observe(c));
    }
    FittingCallsAreNeverTooLarge(invalid, clients, target, observe, encode, content, x);
  }

  function ErrorOf<T>(r: Result<T>): Option<Error> {
    if r.Err? then Some(r.error) else None
  }
}
