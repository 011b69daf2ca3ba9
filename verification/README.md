# Cluster observer: verified model

The cluster observer answers six read-only questions about a cluster: which targets exist, how healthy the
nodes and workloads are, which workloads and Flux objects are unhealthy, which alerts fire, and which
scrapes work. Its sources may send lists of any length and content; its answers have a bounded size, a fixed
order, and a flag when something may be missing. This project is a Dafny model of the way from a validated
configuration to an answer and its audit line, with proofs of what an answer means whatever the sources send.

Verify everything with `dafny verify dfyconfig.toml`.

| files | what they model |
|---|---|
| `Text`, `Errors`, `Contracts`, `Policy` | bytewise order, splitting, the name patterns, Go error trees, the public inputs and outputs, normalisation |
| `Sorting`, `TopList`, `Sums` | `slices.SortFunc` as a verified in-place sort of which only "some sorted permutation" is promised; cutting a sort; sums for measures |
| `Fanout`, `Scopes`, `Kubernetes`, `KubernetesClient`, `Flux` | the list and totals tools over scopes and resources |
| `Records` | what the Kubernetes and Flux results say, on the fields of the records the sources send |
| `Series`, `Scrapes`, `Alerts`, `Monitoring` | the scrape join, the alert list, and the client that holds their configuration |
| `Encoding` | the JSON text of the six outputs, for the size limit |
| `Catalog`, `Server`, `Handlers`, `ToolErrors` | the inventory on the heap, the dispatch tables, the handlers and the errors they let out |
| `Audit`, `Log`, `LogRuns` | audit events, their lines, and the log under concurrent calls |
| `Slots` | the request-slot protocol under any interleaving |

Conventions. A string is a sequence of bytes (a `char` is one byte). An instant is a count of nanoseconds
since 1970 in UTC. A decoded response is an input: each tool is a function of what the source answers to each
path, so that two tools can be compared on the same answers. Code that loops, sorts in place or
builds tables is a method; it is proved against a predicate or function that says what its result is, and
the lemmas are about that predicate. The clients are classes with the fields of the Go structs, and the
catalog is a class over heap arrays. Concurrency (request slots, audit log) is a state machine whose runs
are arbitrary scripts of steps.

## What the code does that one would not expect

- The size limit is never the reason for a failure (`Encoding.WorkloadsNeverTooLarge` and its siblings), so
  with the adapters behind it the server never audits `result_too_large`
  (`Handlers.FittingCallsAreNeverTooLarge` and the five lemmas after it).
- `CheckResultSize` does fail when JSON refuses an instant outside the years 0 to 9999, such as
  `9999-12-31T23:59:59-01:00`, and then the whole list fails, not one entry. An alert list succeeds exactly
  when two things can be encoded: the clock, and the start of every alert that fewer than `limit` others
  precede (`Alerts.AlertsSucceedIffLeadingStartsEncodable`). A start further down is cut away before it is
  encoded. `Alerts.OneStartFailsTheList` and `Alerts.OneStartMayBeCut` are inputs of either kind. For Flux the
  same condition on transition times decides whether the list is sure to succeed
  (`Flux.ReconciliationsSurelySucceedIffLeadersEncodable`), and decides every outcome when names are unique
  or nothing is cut (`Flux.ReconciliationsSucceedIffLeadersEncodable`); `Flux.OneTransitionFailsTheList` is a source.
- A timeout is not always reported as one. If the deadline cuts off the reading of a body, both clients report
  an unavailable source without looking at the context; if it cuts off the fetching of the token, they report a
  missing credential. A request that times out is classified as `source_timeout` exactly if it gave up waiting
  for a slot or got no response (`Slots.EndingOutcome`, `Slots.EndingEvent`);
  `Slots.StalledBodyLooksUnavailable` is a run in which it did neither.
- The sorts are unstable. The outcome of a whole sort is determined exactly when elements that compare equal
  are equal (`Sorting.SortingIsUniqueIffTieFree`), and that of a list cut at `limit` exactly when this holds of
  the elements that fewer than `limit` others precede (`TopList.TopIsUniqueIffLeadersTieFree`). For the workload
  and Flux lists unique names suffice. For alerts the records are determined for every source exactly when no
  component is configured for the alert name `unknown`
  (`Alerts.RecordsAreDeterminedIffUnknownUnmapped`); severity, name and start are determined always.
- ADR 0004 calls the `instance` label optional. In the code a configuration without it matches only series
  without the label, not series of any instance; the model follows the code
  (`Scrapes.OmittedInstanceMeansNoInstance`).
- A sample `[null, "1"]` is accepted, as a sample of 1970, because a JSON null decodes to zero
  (`Scrapes.NullTimestampIsAccepted`; `Scrapes.AcceptedSamples` says exactly which samples are accepted and
  which of them carry a time of the source).
- The audit documentation says that identifiers are omitted for input-validation failures. That holds exactly
  when the context of the call is live (`Audit.ValidationFailureOmitsIdentifiersIffLive`): a call whose
  context is over is logged as canceled first and keeps the identifiers it names
  (`Audit.CanceledValidationFailureKeepsTarget` is such a call).
- The audit log classifies errors that it does not know as validation errors. For errors that pass through
  the server this never happens (`ToolErrors.OutcomeIsCategoryOfFirstMatch`).

## Model

| member | source | states |
|---|---|---|
| Text.CompositeKeyOrdersTriples | internal/kubernetes/observe.go:150-155 | for scopes and kinds without NULs, comparing the joined keys bytewise has the sign of comparing (scope, kind, name) lexicographically, and equal keys force equal triples, for any names |
| Text.CompositeKeyNeedsNulFreeScopes | internal/observer/policy.go:11-37 | without the validators upstream the key would confuse different triples: a concrete pair |
| Text.ObjectNameGrammar | internal/kubernetes/observe.go:244-255 | the recogniser accepts exactly the dot-joins of one or more labels (host syntax of section 2.1 of RFC 1123, labels up to 63 bytes as in section 2.3.4 of RFC 1035) of at most 253 bytes; the decomposition is unique; split then join gives the name back |
| Text.ObjectNameBytes | internal/kubernetes/client.go:28-30 | every byte of an accepted name is a lowercase letter, digit, hyphen or dot, so names need no JSON escapes |
| Text.JoinThenSplit | internal/kubernetes/observe.go:248 | splitting a join of separator-free parts gives the parts back |
| Text.SplitThenJoin | internal/flux/observe.go:182 | joining a split gives the text back |
| Errors.FindIffHas | internal/mcpserver/server.go:351-354 | the depth-first search for a validation error finds one exactly if the error tree contains one |
| Policy.NormalizedInputIsStable | internal/observer/policy.go:45-113 | the two list normalisers agree although one spells out the limits; they accept exactly identifiers and limits 0 to 50; an omitted limit becomes 20 and nothing else changes; normalised input is a fixed point |
| Policy.NormalizedAlertsInputIsStable | internal/observer/policy.go:69-79 | the same for the alert input |
| Policy.WorkloadReasonTable | internal/observer/policy.go:151-164 | which source texts each workload reason stands for, as a table read the other way |
| Policy.ReconciliationReasonTable | internal/observer/policy.go:129-148 | the same for the Flux reasons |
| Policy.SeverityTable | internal/observer/policy.go:115-126 | ASCII text has the severity of the word it spells in letters of either case |
| Sorting.SortFunc | internal/kubernetes/observe.go:150-155 | the in-place sort leaves a sorted permutation of the old contents, for any total preorder |
| Sorting.SortingIsUniqueIffTieFree | internal/kubernetes/observe.go:150-155 | the outcome of an unstable sort is determined if and only if elements that compare equal are equal |
| TopList.TopIffSelection | internal/kubernetes/observe.go:150-159 | a list is a sort cut to the limit if and only if it is a sorted choice of that many candidates that nothing left out precedes |
| TopList.TopsArePrefixes | internal/kubernetes/observe.go:150-159 | of permuted candidates the result under the smaller limit is a prefix of the result under the larger, up to ties, and exactly so without ties |
| TopList.TopDistributes | internal/kubernetes/observe.go:112-159 | the top of ordered groups is the concatenation of the tops of the groups, cut again: up to elements that compare equal, and exactly so if no two different elements do |
| TopList.OverflowDistributes | internal/kubernetes/observe.go:156-159 | the groups together exceed the limit exactly when their tops together do |
| TopList.TiesLeaveAChoice | internal/kubernetes/observe.go:150-159 | two different candidates that compare equal leave two possible results of a list that is not cut |
| TopList.TopIsUniqueIffLeadersTieFree | internal/kubernetes/observe.go:150-159 | the outcome of a sort cut at the limit is determined if and only if no candidate that fewer than limit others precede compares equal to a different one |
| TopList.KeepableIffFewPrecede | internal/kubernetes/observe.go:150-159 | some sort keeps a candidate iff fewer than limit others strictly precede it; and then every sort keeps it or one that ties with it |
| TopList.KeptAllIffKeepableAll | internal/monitoring/observe.go:95-99 | a property that ties share holds of every kept candidate iff it holds of every candidate that fewer than limit others strictly precede |
| Fanout.ListingIsDeterminedAndMonotone | internal/kubernetes/observe.go:122-159 | for permuted answers and limits L1 at most L2 the first result is a prefix of the second, the flags are monotone, a result that is not truncated is the whole list, and equal limits give equal flags; with names unique within each list the prefix is exact |
| Fanout.ListingDistributesOverScopes | internal/kubernetes/observe.go:112-159 | listing all scopes is concatenating the per-scope results in scope order and cutting again: up to reports with one sort key, and report by report if names are unique within each list; in any case Truncated holds iff it does for a scope or the kept entries exceed the limit |
| Fanout.FailureDistributesOverScopes | internal/kubernetes/observe.go:122-127 | listing all scopes fails iff listing one of them does, with the error of the first that fails |
| Fanout.TruncationIsExact | internal/kubernetes/observe.go:122-159 | Truncated holds iff a list was continued, an unhealthy object has an invalid name, or more than the limit are left; the length is the smaller of the limit and the unhealthy objects with valid names |
| Fanout.UniqueNamesAreTieFree | internal/kubernetes/observe.go:150-155 | with names unique within each list no two reports compare equal unless they are equal |
| Fanout.RequestsAreDistinct | internal/kubernetes/observe.go:122-124 | distinct scopes and resources give distinct requests, position by position |
| Scopes.BuildTable | internal/kubernetes/client.go:104-124 | accepts exactly 1 to 32 scopes with valid, pairwise different identifiers and namespaces, and the table is a bijection holding exactly those scopes |
| Scopes.SelectScopes | internal/kubernetes/client.go:162-185 | selects the scope asked for, or all in strictly ascending order whatever the map's iteration order; fails exactly for an unknown scope |
| Scopes.SelectionIsUnique | internal/flux/client.go:100-122 | there is only one such selection, so nothing depends on map iteration |
| Scopes.EnumerationLength | internal/kubernetes/client.go:171-184 | the enumeration has one entry per configured scope |
| Scopes.TablesAreValid | internal/flux/client.go:46-70 | an accepted table is a bijection between identifiers and labels |
| Kubernetes.PathsAreDistinct | internal/kubernetes/observe.go:185 | namespace and resource can be read off a controller path: paths are equal iff both are |
| Kubernetes.PathsAreFixed | internal/kubernetes/observe.go:20-24 | the path of each kind in full: a valid namespace is not escaped |
| Kubernetes.RequestPathsIdentify | internal/kubernetes/observe.go:180-186 | different requests of an accepted configuration have different paths |
| Kubernetes.RequestsDoNotOverlap | internal/kubernetes/observe.go:122-124 | one observation of an accepted configuration makes three requests per configured scope, and the paths at any two positions differ, so no list is read or counted twice |
| Kubernetes.NodeReadyIsFirst | internal/kubernetes/observe.go:198-205 | a node is ready iff its first Ready condition is True, whatever later ones say |
| Kubernetes.ReadyNodesAreCounted | internal/kubernetes/observe.go:39-44 | the count of ready nodes is the number of positions whose first Ready condition is True |
| Kubernetes.ReasonsAreTheSortedSet | internal/kubernetes/observe.go:224-241 | the reasons are non-empty, strictly sorted, within five values, and are the normalised non-empty reasons of the conditions, or not-ready if there are none |
| Kubernetes.ControllerHealth | internal/kubernetes/observe.go:207-242 | a controller is ready iff it has at least as many as it should, where both numbers are the named fields of its record; the loop with its map and the sort compute the canonical list of reasons |
| KubernetesClient.Client.NewClient | internal/kubernetes/client.go:92-148 | accepts exactly the valid configurations and stores the scopes as a bijection and the timeout with its default |
| KubernetesClient.Client.ListUnhealthyWorkloads | internal/kubernetes/observe.go:100-165 | every outcome: invalid input, other target, unknown scope, the first failing request, a clock out of range, or the listing of the selected scopes |
| KubernetesClient.Client.ClusterHealth | internal/kubernetes/observe.go:27-96 | every outcome: node list failure, malformed nodes, the first failing controller list, a clock out of range, or the totals of everything listed |
| KubernetesClient.ObserveWorkloads | internal/kubernetes/observe.go:116-164 | the loops, the sort, the cut and the size check give the listing of the spec; the size check never rejects it |
| KubernetesClient.ObserveTotals | internal/kubernetes/observe.go:39-95 | the counting loops give the totals of the spec |
| KubernetesClient.CountWorkloads | internal/kubernetes/observe.go:57-74 | incrementing per item counts all items and exactly the unhealthy ones, and stops with the first failure |
| KubernetesClient.CountNodes | internal/kubernetes/observe.go:39-44 | the loop over the nodes counts exactly those whose first Ready condition is True |
| KubernetesClient.GatherWorkloads | internal/kubernetes/observe.go:122-148 | the nested loops collect the reports of the reportable controllers in request order and raise the flag exactly if something unhealthy may be missing |
| KubernetesClient.WorkloadToolIsCoherent | internal/kubernetes/observe.go:138-155 | a report carries the sort key of its scope, kind and name |
| KubernetesClient.ClusterHealthConserves | internal/kubernetes/observe.go:39-90 | Total = Ready + Unhealthy = the sum of all list lengths; Nodes.Ready is at most Nodes.Total; Status is unknown iff partial, else healthy iff nothing is unready; warnings are at most three, distinct, in fixed order, with positive counts |
| KubernetesClient.ListAgreesWithTotals | internal/kubernetes/observe.go:57-74 | on the same answers the list and the totals agree: Truncated holds iff a controller list was continued, misnamed unhealthy controllers exist, or Unhealthy minus those exceeds the limit; otherwise the list has exactly Unhealthy entries |
| Records.TotalsOnRecords | internal/kubernetes/observe.go:39-90 | the totals on the records: nodes whose first Ready condition is True, all controllers listed, and those with fewer ready than wanted; partial iff a list was cut; a complete result is healthy iff every node is ready and no controller falls short; exactly the warnings that follow, with their counts |
| Records.WorkloadsOnRecords | internal/kubernetes/observe.go:129-159 | the list on the records: every entry copies scope, kind, name, both numbers and the reasons of a record that falls short and has a valid name; length and flag follow from how many there are; without the flag every such record is listed |
| Records.WorkloadFailureIsTheRequests | internal/kubernetes/observe.go:185-195 | the first request not answered with a list fails the observation: its error comes out as it would alone, and other text as an invalid response |
| Fanout.CountIsSum | internal/kubernetes/observe.go:57-74 | counting over everything listed is adding up the counts of the single answers |
| Fanout.FirstFailureAt | internal/kubernetes/observe.go:124-127 | an observation fails with the first failing request, and succeeds if none fails |
| KubernetesClient.WorkloadsDistributeOverScopes | internal/kubernetes/client.go:162-185 | with names unique within each list the unhealthy workloads of all scopes of a client are those of its scopes one by one in identifier order, cut again; the flag follows from theirs in any case |
| KubernetesClient.ListAnswersFit | internal/kubernetes/observe.go:100-165 | whatever the source sends, the list the client answers passes the size check, or its error is not about size |
| KubernetesClient.TotalsAnswersFit | internal/kubernetes/observe.go:27-96 | the same for the totals |
| Flux.HealthIsFirstReady | internal/flux/observe.go:154-176 | an object is healthy iff its first Ready condition is True, whatever later ones say; state, normalised reason and transition time are that condition's |
| Flux.PathsAreFixed | internal/flux/observe.go:25-44 | the Flux path of each kind in full |
| Flux.PathsAreDistinct | internal/flux/observe.go:141-142 | namespace and kind can be read off a Flux path: paths are equal iff both are |
| Flux.RequestsDoNotOverlap | internal/flux/observe.go:92-94 | one Flux observation makes three requests per configured scope, and the paths at any two positions differ |
| Flux.FluxToolIsCoherent | internal/flux/observe.go:108-125 | a Flux report carries the sort key of its scope, kind and name, so all list results apply to Flux |
| Flux.Client.NewClient | internal/flux/client.go:46-87 | accepts exactly the valid configurations and stores the scopes as a bijection |
| Flux.Client.ListUnhealthyReconciliations | internal/flux/observe.go:71-134 | every outcome: invalid input, other target, unknown scope, the first failing request, an instant out of range, or the listing |
| Flux.ObserveReconciliations | internal/flux/observe.go:87-133 | the loops, the sort, the cut and the size check give the listing of the spec, or an encoding error exactly if an instant of it cannot be encoded |
| Flux.GatherReconciliations | internal/flux/observe.go:92-118 | the nested loops collect the reports in request order and raise the flag exactly if something not ready may be missing |
| Flux.ReconciliationsDistributeOverScopes | internal/flux/client.go:100-122 | with names unique within each list the Flux list distributes over the scopes of a client in the same way; the flag does in any case |
| Records.ReconciliationsOnRecords | internal/flux/observe.go:92-129 | the Flux list on the records: every entry copies scope, kind, name and what the first Ready condition says of an object that is not ready and has a valid name; length and flag follow from how many there are; without the flag every such object is listed |
| Records.ReconciliationFailureIsTheRequests | internal/flux/observe.go:143-150 | the first request not answered with a list decides how a Flux observation fails |
| Flux.ReconciliationsSurelySucceedIffLeadersEncodable | internal/flux/observe.go:120-133 | for any limit and any names: every outcome the unstable sort may have succeeds iff the clock and the transition of every reportable object that fewer than limit others strictly precede lie in the years 0 to 9999 |
| Flux.ReconciliationsSucceedIffLeadersEncodable | internal/flux/observe.go:120-133 | with unique names, or when nothing is cut, that condition decides the outcome |
| Flux.UncutReconciliationsSucceedIffTransitionsEncodable | internal/flux/observe.go:130-132 | an uncut Flux list succeeds iff the clock and the transition of every reportable object can be encoded |
| Flux.OneTransitionFailsTheList | internal/flux/observe.go:168-172 | a source, path by path, in which one object has a transition in the year 10000 in UTC: every client with that scope answers with the encoding error, whatever the limit |
| Flux.AnswersFit | internal/flux/observe.go:71-134 | whatever the source sends, what the client answers passes the size check or is an error that is not about size |
| Series.SeriesKeyIdentifies | internal/monitoring/client.go:166-172 | if the configured job and instance contain no NUL, the key equals the key of any pair, even one with NULs, iff job and instance are equal |
| Series.SeriesKeyNeedsNulFreeLabels | internal/monitoring/client.go:166-172 | without that condition two different pairs share a key: a concrete pair |
| Series.CheckScrapes | internal/monitoring/client.go:77-100 | accepts exactly 1 to 50 valid identities with pairwise different identifiers and pairwise different label pairs, although it compares keys only |
| Series.BuildComponents | internal/monitoring/client.go:102-117 | accepts exactly at most 50 valid mappings of different alert names, and the map holds exactly those |
| Monitoring.Client.NewClient | internal/monitoring/client.go:66-138 | accepts exactly the valid configurations and copies them |
| Monitoring.Client.ListActiveAlerts | internal/monitoring/observe.go:45-104 | every outcome of the alert tool, ending in the true top of the redacted alerts |
| Monitoring.Client.GetScrapeHealth | internal/monitoring/observe.go:108-171 | every outcome of the scrape tool, ending in the join |
| Monitoring.AlertsAnswersFit | internal/monitoring/observe.go:45-104 | whatever the source sends, the alerts the client answers pass the size check, or its error is not about size |
| Monitoring.ScrapesAnswersFit | internal/monitoring/observe.go:108-171 | the same for the scrape health |
| Scrapes.ReadingsMeanTheirSample | internal/monitoring/observe.go:204-234 | an accepted sample has two values; it is up for one and down for zero and nothing else; its time is the timestamp cut to nanoseconds |
| Scrapes.AcceptedSamples | internal/monitoring/observe.go:204-234 | a sample is accepted iff it has a null or a timestamp in range and the text of zero or one; its time is the timestamp cut to nanoseconds, or 1970 for a null |
| Scrapes.NullTimestampIsAccepted | internal/monitoring/observe.go:208-213 | [null, "1"] is read as up at the first instant of 1970 |
| Scrapes.OmittedInstanceMeansNoInstance | internal/monitoring/observe.go:156-161 | an identity without an instance is missing iff every series of its job has an instance |
| Scrapes.ReadingsAreEncodable | internal/monitoring/observe.go:211-213 | the timestamp bound keeps every sample time within the years that can be encoded |
| Scrapes.IndexSamples | internal/monitoring/observe.go:129-149 | the one-pass loop over maps succeeds iff every configured pair has at most one matching sample and every matching sample parses to 0 or 1, and then indexes exactly the configured samples |
| Scrapes.CollectEntries | internal/monitoring/observe.go:151-166 | exactly one entry per configured identity, strictly sorted by ID, missing iff unmatched, otherwise with the reading of its sample |
| Scrapes.ObserveScrapes | internal/monitoring/observe.go:117-171 | the join refines a specification that only compares labels, including its fail-closed cases |
| Scrapes.JoinIsUnique | internal/monitoring/observe.go:151-166 | the entries are determined by the identities and the samples |
| Scrapes.OutcomeDependsOnConfiguredSamples | internal/monitoring/observe.go:134-149 | the outcome is the same for any two responses with the same configured samples |
| Scrapes.PermutedOrIrrelevantIsSameConfigured | internal/monitoring/observe.go:134-149 | permuting samples and adding or removing unconfigured ones, even duplicated or unparsable, keeps the configured samples the same |
| Alerts.ObserveAlerts | internal/monitoring/observe.go:71-103 | the loop, the sort, the cut and the size check give the listing of the redacted alerts, or an encoding error exactly if a kept instant cannot be encoded |
| Alerts.RedactEach | internal/monitoring/observe.go:76-94 | position by position an alert keeps its severity and start whatever its name; the name is the source's if it matches the pattern and unknown otherwise, and only a name that is kept has its configured component |
| Alerts.CompareAlertsIsTotalPreorder | internal/monitoring/observe.go:173-202 | the comparison is a total preorder whose ties have the same severity, name and start |
| Alerts.ListedAlertsAscend | internal/monitoring/observe.go:173-202 | the listed alerts go from critical to unknown, then by name, then from the oldest start, those without a start last |
| Alerts.AlertsAreTopmost | internal/monitoring/observe.go:95-99 | kept and dropped alerts together are all alerts and no dropped one precedes a kept one; a critical alert is dropped only if the limit is reached by critical ones |
| Alerts.ListedAlertsShowSource | internal/monitoring/observe.go:76-99 | on the source alerts: every entry shows one of them, none is shown twice, and one that reads critical is left out only if as many others as the limit allows read critical |
| Alerts.AlertsDoNotDependOnSourceOrder | internal/monitoring/observe.go:76-99 | permuting the source changes neither severity, name nor start at any position, and a smaller limit gives a prefix |
| Alerts.RecordsAreDeterminedIffUnknownUnmapped | internal/monitoring/observe.go:77-84 | the whole records are independent of source order if and only if no component is configured for the name unknown |
| Alerts.UnknownMappingBreaksTies | internal/monitoring/observe.go:77-84 | with such a mapping one pair of alerts can come out in two ways |
| Alerts.AlertsSucceedIffLeadingStartsEncodable | internal/monitoring/observe.go:95-103 | for a source of any length: the observation succeeds iff the clock and the start of every alert that fewer than limit others precede lie in the years 0 to 9999; otherwise it is an encoding error |
| Alerts.SmallerLimitsSucceedToo | internal/monitoring/observe.go:95-103 | success under one limit and order of the source implies success under every smaller limit and every order |
| Alerts.UncutAlertsSucceedIffStartsEncodable | internal/observer/policy.go:168-172 | an uncut list succeeds iff the clock and every start lie in the years 0 to 9999 |
| Alerts.OneStartFailsTheList | internal/observer/policy.go:168-172 | one start in the year 10000 fails the observation: a concrete source |
| Alerts.OneStartMayBeCut | internal/monitoring/observe.go:96-99 | behind an earlier alert the same start is cut away under the limit 1 and the observation succeeds |
| Encoding.WorkloadsNeverTooLarge | internal/observer/policy.go:168-178 | no workload list of the adapter's shape reaches 65536 bytes; the check passes iff the clock can be encoded |
| Encoding.AlertsNeverTooLarge | internal/monitoring/client.go:17 | no alert list of the adapter's shape reaches the limit; the check passes iff its instants can be encoded |
| Encoding.ScrapesNeverTooLarge | internal/observer/policy.go:168-178 | no scrape result of the adapter's shape reaches the limit |
| Encoding.ReconciliationsNeverTooLarge | internal/flux/observe.go:130-132 | no Flux list of the adapter's shape reaches the limit |
| Encoding.ClusterHealthNeverTooLarge | internal/kubernetes/observe.go:92-94 | no summary with 64-bit counts reaches the limit |
| Encoding.TargetsNeverTooLarge | internal/mcpserver/server.go:182-185 | no inventory of at most 32 valid targets reaches the limit |
| Encoding.ItemsAreJoined | internal/observer/policy.go:169 | the text of a list is the texts of its items, in order, joined by commas |
| Catalogs.ValidateTarget | internal/observer/catalog.go:37-61 | accepts exactly identifiers with a known kind and a non-empty, duplicate-free list of capabilities of that kind, and otherwise blames the first field that is wrong |
| Catalogs.CapabilitiesOfKinds | internal/observer/catalog.go:63-76 | a kind admits exactly the capabilities that its client describes |
| Catalogs.ClientTargetsAreAccepted | internal/kubernetes/client.go:151-160 | up to 32 targets described by the clients are accepted iff their identifiers differ |
| Catalogs.Catalog.NewCatalog | internal/observer/catalog.go:14-35 | accepts exactly at most 32 valid targets with different identifiers, and copies them into memory of its own with sorted capabilities |
| Catalogs.Catalog.List | internal/observer/catalog.go:79-97 | fresh slices, strictly sorted by ID whatever the map's iteration order, holding exactly what Lookup finds |
| Catalogs.Catalog.Lookup | internal/observer/catalog.go:99-107 | finds exactly the catalogued targets, in a fresh slice |
| Catalogs.RunCaller | internal/observer/catalog.go:79-107 | any script of listing, looking up and overwriting every slice the caller holds leaves the contents unchanged, and every answer on the way is that of an immutable inventory |
| Catalogs.BuildAndRun | internal/observer/catalog.go:14-107 | the same from the construction on, including writes to the slices the catalog was built from |
| Catalogs.ContentsIgnoreOrder | internal/observer/catalog.go:20-32 | the contents do not depend on the order of the targets or of their capabilities |
| Catalogs.ListingIsUnique | internal/observer/catalog.go:86-96 | the listing is determined by the contents |
| Catalogs.KeptIsValid | internal/observer/catalog.go:28-30 | what is kept of a valid target is valid: sorted and duplicate-free capabilities of its kind |
| Catalogs.ListingPassesSizeCheck | internal/mcpserver/server.go:182-185 | the discovery tool never fails its size check |
| Servers.NewWithSourceSet | internal/mcpserver/server.go:101-160 | accepts exactly source sets without nil or misplaced sources whose targets together form a valid inventory; the tables are those the loops fill |
| Servers.TableHoldsWhatGoes | internal/mcpserver/server.go:106-155 | with distinct identifiers no entry is overwritten: a table holds exactly the sources with its capability |
| Servers.DispatchAgreesWithInventory | internal/mcpserver/server.go:106-160 | for every identifier and capability the table contains the identifier iff the inventory advertises the capability for it, and the entry is the only source of any family with that identifier, Flux included |
| Handlers.ResultComesFromOnlySource | internal/mcpserver/server.go:200-214 | a call returns a result iff its input is valid, the inventory advertises the capability, and the only source with that identifier returns it within the size limit |
| Handlers.NotConfiguredIffNotAdvertised | internal/mcpserver/server.go:226-236 | a valid call is refused as not configured iff the inventory does not advertise the capability, whatever the sources answer, and only public errors are let out |
| Handlers.HandledCallEvent | internal/mcpserver/audit.go:136-205 | under a live context the audit outcome of a handled call is success iff it has a result and target_not_configured iff its input is valid and the inventory does not advertise the capability |
| Handlers.SourceErrorIsAudited | internal/mcpserver/server.go:207-210 | the error of the only source with the identifier is audited as the category of its first match |
| Handlers.FittingCallsAreNeverTooLarge | internal/mcpserver/server.go:207-213 | if what a source answers fits, the handler's own size check never fails and result_too_large is never audited |
| Handlers.WorkloadCallsAreNeverTooLarge | internal/mcpserver/server.go:226-243 | with the Kubernetes clients behind the table no workload call is audited as result_too_large |
| Handlers.TotalsCallsAreNeverTooLarge | internal/mcpserver/server.go:200-214 | nor any call for the cluster totals |
| Handlers.ReconciliationCallsAreNeverTooLarge | internal/mcpserver/server.go:312-329 | nor any Flux call, with the Flux clients |
| Handlers.AlertCallsAreNeverTooLarge | internal/mcpserver/server.go:255-272 | nor any alert call, with the monitoring clients |
| Handlers.ScrapeCallsAreNeverTooLarge | internal/mcpserver/server.go:284-300 | nor any scrape call |
| ToolErrors.SafeErrorIsFirstMatch | internal/mcpserver/server.go:350-388 | the safe error is the first match in the server's order, or "observation failed" without one |
| ToolErrors.SafeErrorsArePublic | internal/mcpserver/server.go:350-388 | whatever the error tree, only a closed list of errors comes out, and a validation error iff the tree contains one |
| ToolErrors.PublicErrorOutcome | internal/mcpserver/audit.go:160-205 | every public error is classified by its own category, none by the fallback |
| ToolErrors.OutcomeIsCategoryOfFirstMatch | internal/mcpserver/audit.go:160-205 | the two classifications, which use different orders, compose: category of the first match in the server's order, internal error without one, validation error iff the tree contains one |
| ToolErrors.UnknownErrorsAreValidationFailures | internal/mcpserver/audit.go:160-205 | which errors the log takes for validation errors: trees with one, and trees with none of the server's own values, such as plain errors |
| ToolErrors.WrappingIsTransparent | internal/mcpserver/server.go:350-388 | wrapping an error does not change the safe error that comes out |
| ToolErrors.PublicValuesPass | internal/mcpserver/server.go:350-388 | a value the server knows, other than a cancellation, comes out unchanged |
| Audit.AuditRequest | internal/mcpserver/audit.go:103-134 | the event names one of the six tools or unknown, and carries only identifiers |
| Audit.AddAuditResult | internal/mcpserver/audit.go:207-262 | sets exactly the counts and flags of the tool, if the content decodes, and nothing else |
| Audit.Observe | internal/mcpserver/audit.go:65-95 | the middleware's updates step by step give the event of the exchange |
| Audit.EventsAreWellFormed | internal/mcpserver/audit.go:36-47 | identifiers are empty or valid, and empty for validation errors, unsupported tools and discovery; the tool is unknown iff unsupported, unless canceled; durations are not negative; counts and flags appear only on success and only for their tools |
| Audit.EventTellsExchange | internal/mcpserver/audit.go:77-92 | on the exchange alone: the timestamp is the finish, the tool is the one called, the outcome is decided by context, tool and result, and the identifiers are exactly those arguments that are identifiers unless input validation failed |
| Audit.EventCountsResult | internal/mcpserver/audit.go:207-262 | on success with decodable content each of the six tools adds exactly its count and flags, with the decoded values |
| Audit.DurationIsElapsed | internal/mcpserver/audit.go:82-84 | the duration is the elapsed time in whole milliseconds, zero when the clock went back, and capped by the saturation of the subtraction |
| Audit.SourceErrorEvent | internal/mcpserver/audit.go:85-92 | for any source error tree under a live context the outcome is the category of its first match, and identifiers are left out iff the tree has a validation error |
| Audit.ValidationFailureOmitsIdentifiersIffLive | internal/mcpserver/audit.go:85-89 | a call that names an identifier and fails input validation, before or in a handler, leaves its identifiers out iff its context is live; otherwise it is logged as canceled |
| Audit.CanceledValidationFailureKeepsTarget | internal/mcpserver/audit.go:142-144 | a canceled call that is refused with a plain error, as for a limit that is too large, keeps its target in the log: a concrete exchange |
| Log.EventsAreOneLine | internal/mcpserver/audit.go:97-101 | the encoding of an event never contains a newline, whatever the event and the text of its time |
| Log.EventIsItsMembers | internal/mcpserver/audit.go:36-47 | an event is encoded as the object of its members in the order of the schema, leaving out empty identifiers, counts and flags |
| LogRuns.RunKeepsInvariant | internal/mcpserver/audit.go:97-101 | in every run the log is the whole lines of the finished calls followed by a prefix of the line of the mutex holder, each call has written at most once, and the log only grows |
| LogRuns.FinishedLogHasOneEventPerCall | internal/mcpserver/audit.go:65-101 | at the end of every run, splitting the log at newlines gives exactly the encoded event of each tool call, each once, and nothing for other methods |
| LogRuns.SomeStepIsEnabled | internal/mcpserver/audit.go:97-101 | no run gets stuck |
| LogRuns.StepDecreases | internal/mcpserver/audit.go:97-101 | every run is finite |
| Slots.RunKeepsInvariant | internal/sourcehttp/client.go:100-109 | in every run the channel length equals the number of requests that hold a slot and is at most 4, requests acquire at most once, and those that gave up report the end of their context |
| Slots.ReleaseNeverBlocks | internal/sourcehttp/client.go:104-106 | a holder can always take its entry back out of the channel |
| Slots.FinishedRunsLeaveNoSlots | internal/kubernetes/client.go:187-202 | when all requests have finished the channel is empty, and a request released iff it acquired, which it did iff it did not give up |
| Slots.SomeRequestCanGoOn | internal/sourcehttp/client.go:104-109 | no deadlock: some request can go on without any context ending |
| Slots.StepDecreases | internal/sourcehttp/client.go:100-109 | every step lowers a measure |
| Slots.RunsAreShort | internal/sourcehttp/client.go:100-109 | no run of n requests takes more than 4n steps |
| Slots.ContextErrorIsReported | internal/sourcehttp/client.go:154-162 | the error that either client makes of a context that is over is classified as source_timeout or canceled after what ended it, and of a missing response under a live context as source_unavailable, wrapped or not |
| Slots.EndingOutcome | internal/sourcehttp/client.go:100-152 | in every state of every run: a failed request is classified as source_timeout iff its context timed out and it gave up waiting or got no response, likewise canceled; as source_unavailable iff it could not be sent, its body broke off, or a response failed to come under a live context; its error is never the size error |
| Slots.EndingIsDecidedByExchange | internal/sourcehttp/client.go:136-152 | in every state of every run: a finished request has no error iff a response of status 200 to 299 came with a JSON media type, for the shared client, and a whole body; it is classified as source_rejected iff a response of another status came, and as invalid_source_response iff the media type was wrong or the body too long |
| Slots.EndingEvent | internal/mcpserver/audit.go:136-150 | the same in the audit log, where a call is canceled iff its own context is over, however often the error was wrapped |
| Slots.StalledBodyLooksUnavailable | internal/kubernetes/client.go:244-247 | a run in which the deadline passes while the body is read ends as an unavailable source, with either client |

## Left out

- The HTTP exchange, TLS, redirects, headers and reading of bodies, and the parsing of base URLs: whether the
  HTTP settings are accepted is a parameter of each client's constructor.
- JSON decoding, time parsing and Go's regexp engine: decoded records are inputs, and the patterns are
  explicit predicates. JSON object keys that occur twice are not part of this model.
- Calendar arithmetic: the text of an instant is a function parameter, of at most 30 bytes for years of four digits.
- Floating-point rounding: Prometheus timestamps are reals, and a number text has its exact value. A double
  close to 1 that rounds to 1 is not distinguished.
- Bytes from 0x80 in the JSON encoder are written as replacements; no output of the adapters contains any.
- The MCP SDK: registration, schemas, sessions and the errors it makes while decoding input.
- Failures of the audit writer; what `json.Encoder` does after one is not part of this model.
- Monotonic clock readings: elapsed time is the difference of the two instants.
- The texts of configuration errors, beyond the field a target is refused for: which configurations are
  accepted is exact, but not which of several faults is named.
- Scheduling and fairness of `select` and of the mutex: runs are arbitrary, so nothing is said on who goes first.
- `internal/config`, `internal/httptransport` and `cmd`: copying fields, thin listeners and probes.
- Handlers.FittingCallsAreNeverTooLarge: the lemmas that apply it to the clients assume that no request error
  is the size error; `Slots.EndingOutcome` proves that of the requests of either client.
- KubernetesClient.Client.ClusterHealth: assumes what the 2 MiB body limit implies, that no list has more
  elements than the limit has bytes, so that counts fit 64 bits.
- Catalogs.Catalog.List: sorts the identifiers and picks the copies in their order, where the code sorts the
  records themselves by identifier.
- Servers.NewWithSourceSet: error texts do not name the family, and a source's target is the same at every call.
- Slots.RunKeepsInvariant: what happens between acquiring and finishing is one step with an arbitrary exchange.
- Slots.EndingEvent: assumes that a request's context is cancelled only through the context of its call.
