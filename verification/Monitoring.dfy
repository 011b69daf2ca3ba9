/**
 The client of one monitoring target: the validated configuration and its two observations.
 */
module Monitoring {
  import opened Text
  import opened Errors
  import opened Contracts
  import opened Policy
  import opened Encoding
  import opened Series
  import opened Scrapes
  import opened Alerts
  import opened TopList

  /** The settings `NewClient` checks; `httpAccepted` says whether the shared HTTP settings are. */
  datatype Config = Config(
    targetID: string, prometheus: Service, alertmanager: Service,
    scrapes: seq<ScrapeIdentity>, components: seq<AlertComponent>, httpAccepted: bool)

  ghost predicate ConfigAccepted(config: Config) {
    && Identifier(config.targetID)
    && ValidService(config.prometheus) && ValidService(config.alertmanager)
    && AcceptedScrapes(config.scrapes) && AcceptedComponents(config.components)
    && config.httpAccepted
  }

  function ServiceProxyPath(s: Service): string {
    "/api/v1/namespaces/" + s.namespace + "/services/" + s.name + ":" + s.port + "/proxy"
  }

  /** The answer to the alert request: a request error, text that does not decode, or the alerts. */
  datatype AlertsReply = AlertsFailed(error: Error) | AlertsMalformed | AlertsDecoded(alerts: seq<SourceAlert>)

  const NOT_CONFIGURED: Error := Plain("monitoring target is not configured")

  /** Accepted mappings are identifiers for alert names. */
  lemma AcceptedComponentsAreValid(components: map<string, string>, configured: seq<AlertComponent>)
    requires AcceptedComponents(configured) && Maps(components, configured)
    ensures ValidComponents(components)
  {
    hide AlertName, Identifier;
    forall name | name in components ensures AlertName(name) && Identifier(components[name]) {
      assert AlertComponent(name, components[name]) in configured;
    }
  }

  class Client {
    const targetID: string
    const prometheusPath: string
    const alertmanagerPath: string
    const scrapes: seq<ScrapeIdentity>
    const components: map<string, string>

    ghost predicate Valid() {
      Identifier(targetID) && AcceptedScrapes(scrapes) && ValidComponents(components)
    }

    constructor Make(
      targetID: string, prometheusPath: string, alertmanagerPath: string,
      scrapes: seq<ScrapeIdentity>, components: map<string, string>)
      ensures this.targetID == targetID
      ensures this.prometheusPath == prometheusPath && this.alertmanagerPath == alertmanagerPath
      ensures this.scrapes == scrapes && this.components == components
    {
      this.targetID, this.scrapes, this.components := targetID, scrapes, components;
      this.prometheusPath, this.alertmanagerPath := prometheusPath, alertmanagerPath;
    }

    static method NewClient(config: Config) returns (r: Result<Client>)
      ensures r.Ok? <==> ConfigAccepted(config)
      ensures r.Ok? ==> r.value.Valid() && r.value.targetID == config.targetID
      ensures r.Ok? ==> r.value.scrapes == config.scrapes && Maps(r.value.components, config.components)
      ensures r.Ok? ==> r.value.prometheusPath == ServiceProxyPath(config.prometheus)
      ensures r.Ok? ==> r.value.alertmanagerPath == ServiceProxyPath(config.alertmanager)
    {
      hide AcceptedScrapes, AcceptedComponents, ValidService, Maps, ValidComponents, Identifier;
      var invalid := ValidateIdentifier("target", config.targetID);
      if invalid.Some? {
        return Err(invalid.value);
      }
      if !ValidService(config.prometheus) {
        return Err(Plain("Prometheus Service configuration is invalid"));
      }
      if !ValidService(config.alertmanager) {
        return Err(Plain("Alertmanager Service configuration is invalid"));
      }
      var scrapes := CheckScrapes(config.scrapes);
      if scrapes.Err? {
        return Err(scrapes.error);
      }
      var components := BuildComponents(config.components);
      if components.Err? {
        return Err(components.error);
      }
      if !config.httpAccepted {
        return Err(Plain("source settings are invalid"));
      }
      AcceptedComponentsAreValid(components.value, config.components);
      var client := new Client.Make(
        config.targetID, ServiceProxyPath(config.prometheus), ServiceProxyPath(config.alertmanager),
        scrapes.value, components.value);
      return Ok(client);
    }

    /** Every outcome of the alert tool. */
    ghost predicate AnswersAlerts(reply: AlertsReply, input: AlertsInput, now: Instant, r: Result<AlertsOutput>) {
      var n := NormalizeAlertsInput(input);
      if n.Err? then r == Err(n.error)
      else if n.value.target != targetID then r == Err(NOT_CONFIGURED)
      else if reply.AlertsFailed? then r == Err(reply.error)
      else if reply.AlertsMalformed? then r == Err(Value(SourceInvalidResponse))
      else AlertsResult(targetID, components, reply.alerts, n.value.limit, now, r)
    }

    /** `ListActiveAlerts`, given the answer to its request. */
    method ListActiveAlerts(reply: AlertsReply, input: AlertsInput, now: Instant, format: Instant -> string)
      returns (r: Result<AlertsOutput>)
      requires Valid() && Rfc3339(format)
      ensures AnswersAlerts(reply, input, now, r)
    {
      hide AlertsResult, AcceptedScrapes, ValidComponents, Identifier;
      var normalized := NormalizeAlertsInput(input);
      if normalized.Err? {
        return Err(normalized.error);
      }
      if normalized.value.target != targetID {
        return Err(NOT_CONFIGURED);
      }
      if reply.AlertsFailed? {
        return Err(reply.error);
      }
      if reply.AlertsMalformed? {
        return Err(Value(SourceInvalidResponse));
      }
      r := ObserveAlerts(targetID, components, reply.alerts, normalized.value.limit, now, format);
    }

    /** Every outcome of the scrape tool. */
    ghost predicate AnswersScrapes(reply: QueryReply, target: string, now: Instant, r: Result<ScrapesOutput>) {
      var invalid := ValidateIdentifier("target", target);
      if invalid.Some? then r == Err(invalid.value)
      else if target != targetID then r == Err(NOT_CONFIGURED)
      else ScrapesResult(targetID, scrapes, reply, now, r)
    }

    /** `GetScrapeHealth`, given the answer to the fixed query. */
    method GetScrapeHealth(reply: QueryReply, target: string, now: Instant, format: Instant -> string)
      returns (r: Result<ScrapesOutput>)
      requires Valid() && Rfc3339(format)
      ensures AnswersScrapes(reply, target, now, r)
    {
      hide ScrapesResult, AcceptedScrapes, ValidComponents, Identifier;
      var invalid := ValidateIdentifier("target", target);
      if invalid.Some? {
        return Err(invalid.value);
      }
      if target != targetID {
        return Err(NOT_CONFIGURED);
      }
      r := ObserveScrapes(targetID, scrapes, reply, now, format);
    }
  }

  // -------------------------------------------------------------- result size

  /** If no request error is about size, every alert answer passes the size check or is another error. */
  lemma AlertsAnswersFit(
    c: Client, reply: AlertsReply, input: AlertsInput, now: Instant, format: Instant -> string,
    r: Result<AlertsOutput>)
    requires c.Valid() && Rfc3339(format)
    requires reply.AlertsFailed? ==> !Is(reply.error, ResultTooLarge)
    requires c.AnswersAlerts(reply, input, now, r)
    ensures Fits(r, (out: AlertsOutput) => MarshalAlerts(out, format))
  {
    hide Rfc3339, AlertsTimes, ValidComponents, RedactAll, IsTop;
    if r.Ok? {
      RedactedAlertsAreWellFormed(c.components, reply.alerts, NormalizeAlertsInput(input).value.limit, r.value);
      AlertsNeverTooLarge(r.value, format);
    }
  }

  lemma ScrapesAnswersFit(
    c: Client, reply: QueryReply, target: string, now: Instant, format: Instant -> string,
    r: Result<ScrapesOutput>)
    requires c.Valid() && Rfc3339(format)
    requires reply.QueryFailed? ==> !Is(reply.error, ResultTooLarge)
    requires c.AnswersScrapes(reply, target, now, r)
    ensures Fits(r, (out: ScrapesOutput) => MarshalScrapes(out, format))
  {
    hide Rfc3339, Scrapes.Joined, Joinable, AcceptedScrapes;
    if r.Ok? {
      EntriesAreWellFormed(c.scrapes, reply.samples, r.value);
      ScrapesNeverTooLarge(r.value, format);
    }
  }
}
