/**
 The JSON text of the six outputs, as `json.Marshal` writes their fields, and the proof that no output
 the adapters can build comes near the size limit. The text of an instant is a parameter, because the
 calendar is not modelled; all that matters is its length.
 */
module Encoding {
  import opened Text
  import opened Errors
  import opened Contracts
  import opened Policy

  /** RFC 3339 with nanoseconds in UTC takes at most 30 bytes for years of four digits. */
  ghost predicate Rfc3339(format: Instant -> string) {
    forall t | Encodable(t) :: |format(t)| <= 30
  }

  // ------------------------------------------------------------------ scalars

  function Digits(n: nat): string {
    if n < 10 then [('0' as int + n) as char]
    else Digits(n / 10) + [('0' as int + n % 10) as char]
  }

  function Decimal(n: int): string {
    if n < 0 then "-" + Digits(-n) else Digits(n)
  }

  function HexDigit(n: nat): char
    requires n < 16
  {
    if n < 10 then ('0' as int + n) as char else ('a' as int + n - 10) as char
  }

  /**
   One byte inside a JSON string (section 7 of RFC 8259), with the HTML-sensitive characters escaped
   as Go does. Bytes from 0x80 are written as replacements; valid UTF-8 would be copied instead.
   */
  function EscapeByte(c: char): string {
    if c == '\"' then "\\\""
    else if c == '\\' then "\\\\"
    else if c == '\U{08}' then "\\b"
    else if c == '\U{0C}' then "\\f"
    else if c == '\n' then "\\n"
    else if c == '\r' then "\\r"
    else if c == '\t' then "\\t"
    else if (c as int) < 0x20 || c == '<' || c == '>' || c == '&' then
      "\\u00" + [HexDigit((c as int) / 16), HexDigit((c as int) % 16)]
    else if (c as int) < 0x80 then [c]
    else "\\ufffd"
  }

  function Escape(s: string): string {
    if s == "" then "" else EscapeByte(s[0]) + Escape(s[1..])
  }

  function Quote(s: string): string {
    "\"" + Escape(s) + "\""
  }

  function EncodeBool(b: bool): string {
    if b then "true" else "false"
  }

  function EncodeTime(t: Instant, format: Instant -> string): string {
    "\"" + format(t) + "\""
  }

  function EncodeList<T>(items: seq<T>, encode: T -> string): string {
    "[" + EncodeItems(items, encode) + "]"
  }

  function EncodeItems<T>(items: seq<T>, encode: T -> string): string {
    if items == [] then ""
    else if |items| == 1 then encode(items[0])
    else encode(items[0]) + "," + EncodeItems(items[1..], encode)
  }

  // ------------------------------------------------------------------ outputs

  /** One member of an object, followed by the text of the members after it. */
  function Member(name: string, value: string, rest: string): (text: string)
    ensures |text| == |name| + |value| + |rest| + 3
  {
    "\"" + name + "\":" + value + rest
  }

  /** A member that is not the last. */
  function Then(name: string, value: string, rest: string): (text: string)
    ensures |text| == |name| + |value| + |rest| + 4
  {
    Member(name, value, "," + rest)
  }

  /** The closing members that `omitempty` drops for a nil time. */
  function OptionalTime(name: string, t: Option<Instant>, format: Instant -> string): string {
    if t.None? then "" else "," + Member(name, EncodeTime(t.value, format), "")
  }

  function EncodeCapability(c: Capability): string {
    Quote(c.Text())
  }

  function EncodeTarget(t: TargetInfo): string {
    "{" + Then("id", Quote(t.id),
          Then("kind", Quote(t.kind.Text()),
          Member("capabilities", EncodeList(t.capabilities, EncodeCapability), "}")))
  }

  function EncodeTargets(targets: seq<TargetInfo>): string {
    "{" + Member("targets", EncodeList(targets, EncodeTarget), "}")
  }

  function EncodeWarning(w: HealthWarning): string {
    "{" + Then("code", Quote(w.code.Text()), Member("count", Decimal(w.count), "}"))
  }

  function EncodeNodes(out: ClusterHealthOutput): string {
    "{" + Then("total", Decimal(out.nodesTotal), Member("ready", Decimal(out.nodesReady), "}"))
  }

  function EncodeSummary(out: ClusterHealthOutput): string {
    "{" + Then("total", Decimal(out.workloadsTotal),
          Then("ready", Decimal(out.workloadsReady),
          Member("unhealthy", Decimal(out.workloadsUnhealthy), "}")))
  }

  function EncodeClusterHealth(out: ClusterHealthOutput, format: Instant -> string): string {
    "{" + Then("target", Quote(out.target),
          Then("observedAt", EncodeTime(out.observedAt, format),
          Then("status", Quote(out.status.Text()),
          Then("nodes", EncodeNodes(out),
          Then("workloads", EncodeSummary(out),
          Then("warnings", EncodeList(out.warnings, EncodeWarning),
          Member("partial", EncodeBool(out.partial), "}")))))))
  }

  function EncodeReason(r: WorkloadReason): string {
    Quote(r.Text())
  }

  function EncodeWorkload(w: WorkloadHealth): string {
    "{" + Then("scope", Quote(w.scope),
          Then("kind", Quote(w.kind),
          Then("name", Quote(w.name),
          Then("ready", Decimal(w.ready),
          Then("desired", Decimal(w.desired),
          Member("reasons", EncodeList(w.reasons, EncodeReason), "}"))))))
  }

  /** The frame of the list outputs: target, time, the named list and the closing flag. */
  function EncodeFrame(
    target: string, observedAt: Instant, format: Instant -> string,
    listName: string, list: string, flagName: string, flag: bool): string
  {
    "{" + Then("target", Quote(target),
          Then("observedAt", EncodeTime(observedAt, format),
          Then(listName, list,
          Member(flagName, EncodeBool(flag), "}"))))
  }

  function EncodeWorkloads(out: WorkloadsOutput, format: Instant -> string): string {
    EncodeFrame(out.target, out.observedAt, format,
                "workloads", EncodeList(out.workloads, EncodeWorkload), "truncated", out.truncated)
  }

  function AlertText(a: ActiveAlert, format: Instant -> string): string {
    "{" + Then("name", Quote(a.name),
          Member("severity", Quote(a.severity.Text()),
                 (if a.component == "" then "" else "," + Member("component", Quote(a.component), ""))
                 + OptionalTime("startedAt", a.startedAt, format) + "}"))
  }

  function EncodeAlert(format: Instant -> string): ActiveAlert -> string {
    (a: ActiveAlert) => AlertText(a, format)
  }

  function EncodeAlerts(out: AlertsOutput, format: Instant -> string): string {
    EncodeFrame(out.target, out.observedAt, format,
                "alerts", EncodeList(out.alerts, EncodeAlert(format)), "truncated", out.truncated)
  }

  function ScrapeText(s: ScrapeHealth, format: Instant -> string): string {
    "{" + Then("id", Quote(s.id),
          Member("state", Quote(s.state.Text()), OptionalTime("sampledAt", s.sampledAt, format) + "}"))
  }

  function EncodeScrape(format: Instant -> string): ScrapeHealth -> string {
    (s: ScrapeHealth) => ScrapeText(s, format)
  }

  function EncodeScrapes(out: ScrapesOutput, format: Instant -> string): string {
    EncodeFrame(out.target, out.observedAt, format,
                "scrapes", EncodeList(out.scrapes, EncodeScrape(format)), "partial", out.partial)
  }

  function ReconciliationText(r: Reconciliation, format: Instant -> string): string {
    "{" + Then("scope", Quote(r.scope),
          Then("kind", Quote(r.kind),
          Then("name", Quote(r.name),
          Then("state", Quote(r.state.Text()),
          Member("reason", Quote(r.reason.Text()),
                 OptionalTime("transitionedAt", r.transitionedAt, format) + "}")))))
  }

  function EncodeReconciliation(format: Instant -> string): Reconciliation -> string {
    (r: Reconciliation) => ReconciliationText(r, format)
  }

  function EncodeReconciliations(out: ReconciliationsOutput, format: Instant -> string): string {
    EncodeFrame(out.target, out.observedAt, format,
                "reconciliations", EncodeList(out.reconciliations, EncodeReconciliation(format)),
                "truncated", out.truncated)
  }

  // `json.Marshal`: an instant outside the years 0 to 9999 anywhere fails the whole encoding.

  predicate WorkloadsTimes(out: WorkloadsOutput) { Encodable(out.observedAt) }

  predicate AlertsTimes(out: AlertsOutput) {
    Encodable(out.observedAt) && forall a | a in out.alerts :: MaybeEncodable(a.startedAt)
  }

  predicate ScrapesTimes(out: ScrapesOutput) {
    Encodable(out.observedAt) && forall s | s in out.scrapes :: MaybeEncodable(s.sampledAt)
  }

  predicate ReconciliationsTimes(out: ReconciliationsOutput) {
    Encodable(out.observedAt) && forall r | r in out.reconciliations :: MaybeEncodable(r.transitionedAt)
  }

  function MarshalClusterHealth(out: ClusterHealthOutput, format: Instant -> string): Option<string> {
    if Encodable(out.observedAt) then Some(EncodeClusterHealth(out, format)) else None
  }

  function MarshalWorkloads(out: WorkloadsOutput, format: Instant -> string): Option<string> {
    if WorkloadsTimes(out) then Some(EncodeWorkloads(out, format)) else None
  }

  function MarshalAlerts(out: AlertsOutput, format: Instant -> string): Option<string> {
    if AlertsTimes(out) then Some(EncodeAlerts(out, format)) else None
  }

  function MarshalScrapes(out: ScrapesOutput, format: Instant -> string): Option<string> {
    if ScrapesTimes(out) then Some(EncodeScrapes(out, format)) else None
  }

  function MarshalReconciliations(out: ReconciliationsOutput, format: Instant -> string): Option<string> {
    if ReconciliationsTimes(out) then Some(EncodeReconciliations(out, format)) else None
  }

  // ------------------------------------------------------------------ lengths

  /** The bytes the validated fields are made of; none of them is escaped. */
  predicate PlainText(s: string) {
    forall i | 0 <= i < |s| :: AlertNameChar(s[i])
  }

  lemma {:induction false} QuotePlain(s: string)
    requires PlainText(s)
    ensures Escape(s) == s && |Quote(s)| == |s| + 2
  {
    if s != "" {
      QuotePlain(s[1..]);
      assert s == [s[0]] + s[1..];
    }
  }

  /** No byte takes more than six, which is close enough for the short constant texts. */
  lemma {:induction false} QuoteAtMostSix(s: string, n: nat)
    requires |s| <= n
    ensures |Quote(s)| <= 6 * n + 2
  {
    if s != "" { QuoteAtMostSix(s[1..], n - 1); }
  }

  function Power10(k: nat): nat {
    if k == 0 then 1 else 10 * Power10(k - 1)
  }

  lemma {:induction false} DigitsLength(n: nat, k: nat)
    requires k > 0 && n < Power10(k)
    ensures |Digits(n)| <= k
    decreases k
  {
    if n >= 10 {
      assert k > 1;
      DigitsLength(n / 10, k - 1);
    }
  }

  lemma DecimalLength(n: Int64)
    ensures |Decimal(n)| <= 20
  {
    assert Power10(10) == 10_000_000_000;
    PowerSplits(10, 9);
    var magnitude: int := if (n as int) < 0 then 0 - n else n;
    DigitsLength(magnitude, 19);
  }

  lemma {:induction false} PowerSplits(j: nat, k: nat)
    ensures Power10(j + k) == Power10(j) * Power10(k)
  {
    if j > 0 { PowerSplits(j - 1, k); }
  }

  lemma {:induction false} ItemsLength<T>(items: seq<T>, encode: T -> string, each: nat)
    requires forall x | x in items :: |encode(x)| <= each
    ensures |EncodeItems(items, encode)| <= |items| * (each + 1)
    decreases |items|
  {
    if items == [] {
    } else if |items| == 1 {
      assert items[0] in items;
    } else {
      ItemsLength(items[1..], encode, each);
      assert items[0] in items;
      assert |items| * (each + 1) == (each + 1) + |items[1..]| * (each + 1);
    }
  }

  /** At most `most` items of at most `each` bytes. */
  lemma ListLength<T>(items: seq<T>, encode: T -> string, most: nat, each: nat)
    requires |items| <= most
    requires forall x | x in items :: |encode(x)| <= each
    ensures |EncodeList(items, encode)| <= 2 + most * (each + 1)
  {
    ItemsLength(items, encode, each);
    assert |items| * (each + 1) <= most * (each + 1);
  }

  lemma FrameLength(
    target: string, observedAt: Instant, format: Instant -> string,
    listName: string, list: string, flagName: string, flag: bool)
    requires Rfc3339(format) && Identifier(target) && Encodable(observedAt)
    ensures |EncodeFrame(target, observedAt, format, listName, list, flagName, flag)|
         <= 110 + |listName| + |list| + |flagName|
  {
    QuotePlain(target);
    assert |format(observedAt)| <= 30;
  }

  lemma OptionalTimeLength(name: string, t: Option<Instant>, format: Instant -> string)
    requires Rfc3339(format) && MaybeEncodable(t)
    ensures |OptionalTime(name, t, format)| <= 36 + |name|
  {
    if t.Some? { assert |format(t.value)| <= 30; }
  }

  // ------------------------------------------------------ what the adapters build

  predicate ControllerKind(kind: string) {
    kind == DEPLOYMENT || kind == STATEFUL_SET || kind == DAEMON_SET
  }

  predicate FluxResourceKind(kind: string) {
    kind == KUSTOMIZATION || kind == HELM_RELEASE || kind == GIT_REPOSITORY
  }

  /** The shape of a reported workload: validated identifier and name, a controller kind, few reasons. */
  predicate WorkloadShape(w: WorkloadHealth) {
    && Identifier(w.scope) && ValidObjectName(w.name)
    && ControllerKind(w.kind)
    && |w.reasons| <= 5
  }

  predicate WorkloadsShape(out: WorkloadsOutput) {
    && Identifier(out.target) && |out.workloads| <= MAX_LIST_LIMIT
    && forall w | w in out.workloads :: WorkloadShape(w)
  }

  predicate AlertShape(a: ActiveAlert) {
    AlertName(a.name) && (a.component == "" || Identifier(a.component))
  }

  predicate AlertsShape(out: AlertsOutput) {
    && Identifier(out.target) && |out.alerts| <= MAX_LIST_LIMIT
    && forall a | a in out.alerts :: AlertShape(a)
  }

  predicate ScrapesShape(out: ScrapesOutput) {
    && Identifier(out.target) && |out.scrapes| <= MAX_LIST_LIMIT
    && forall s | s in out.scrapes :: Identifier(s.id)
  }

  predicate ReconciliationShape(r: Reconciliation) {
    && Identifier(r.scope) && ValidObjectName(r.name)
    && FluxResourceKind(r.kind)
  }

  predicate ReconciliationsShape(out: ReconciliationsOutput) {
    && Identifier(out.target) && |out.reconciliations| <= MAX_LIST_LIMIT
    && forall r | r in out.reconciliations :: ReconciliationShape(r)
  }

  predicate CountFits(n: int) { 0 <= n < 0x8000_0000_0000_0000 }

  predicate ClusterHealthShape(out: ClusterHealthOutput) {
    && Identifier(out.target) && |out.warnings| <= 3
    && CountFits(out.nodesTotal) && CountFits(out.nodesReady)
    && CountFits(out.workloadsTotal) && CountFits(out.workloadsReady) && CountFits(out.workloadsUnhealthy)
    && forall w | w in out.warnings :: CountFits(w.count)
  }

  predicate TargetShape(t: TargetInfo) {
    && Identifier(t.id) && !t.kind.OtherKind?
    && |t.capabilities| <= 2 && forall c | c in t.capabilities :: !c.OtherCapability?
  }

  predicate TargetsShape(targets: seq<TargetInfo>) {
    |targets| <= MAX_TARGETS && forall t | t in targets :: TargetShape(t)
  }

  lemma LongReasonIsPlain(r: WorkloadReason)
    requires r.ProgressDeadline?
    ensures PlainText(r.Text()) && |r.Text()| <= 26
  {
  }

  lemma ReasonIsPlain(r: WorkloadReason)
    ensures PlainText(r.Text()) && |r.Text()| <= 26
  {
    if r.ProgressDeadline? { LongReasonIsPlain(r); }
  }

  lemma ReasonLength(r: WorkloadReason)
    ensures |EncodeReason(r)| <= 28
  {
    ReasonIsPlain(r);
    QuotePlain(r.Text());
  }

  lemma ControllerKindLength(kind: string)
    requires ControllerKind(kind)
    ensures |Quote(kind)| <= 68
  {
    QuoteAtMostSix(kind, 11);
  }

  lemma ObjectNameLength(name: string)
    requires ValidObjectName(name)
    ensures |Quote(name)| <= 255
  {
    ObjectNameBytes(name);
    QuotePlain(name);
  }

  lemma IdentifierLength(id: string)
    requires Identifier(id)
    ensures |Quote(id)| <= 34
  {
    QuotePlain(id);
  }

  lemma WorkloadLength(w: WorkloadHealth)
    requires WorkloadShape(w)
    ensures |EncodeWorkload(w)| <= 640
  {
    IdentifierLength(w.scope);
    ControllerKindLength(w.kind);
    ObjectNameLength(w.name);
    DecimalLength(w.ready);
    DecimalLength(w.desired);
    forall r | r in w.reasons ensures |EncodeReason(r)| <= 28 { ReasonLength(r); }
    ListLength(w.reasons, EncodeReason, 5, 28);
  }

  lemma WorkloadsLength(out: WorkloadsOutput, format: Instant -> string)
    requires Rfc3339(format) && WorkloadsShape(out) && WorkloadsTimes(out)
    ensures |EncodeWorkloads(out, format)| <= 32_500
  {
    forall w | w in out.workloads ensures |EncodeWorkload(w)| <= 640 { WorkloadLength(w); }
    ListLength(out.workloads, EncodeWorkload, MAX_LIST_LIMIT, 640);
    FrameLength(out.target, out.observedAt, format,
                "workloads", EncodeList(out.workloads, EncodeWorkload), "truncated", out.truncated);
  }

  lemma AlertLength(a: ActiveAlert, format: Instant -> string)
    requires Rfc3339(format) && AlertShape(a) && MaybeEncodable(a.startedAt)
    ensures |AlertText(a, format)| <= 330
  {
    QuotePlain(a.name);
    QuoteAtMostSix(a.severity.Text(), 8);
    if a.component != "" { IdentifierLength(a.component); }
    OptionalTimeLength("startedAt", a.startedAt, format);
  }

  lemma AlertsLength(out: AlertsOutput, format: Instant -> string)
    requires Rfc3339(format) && AlertsShape(out) && AlertsTimes(out)
    ensures |EncodeAlerts(out, format)| <= 17_000
  {
    var encode := EncodeAlert(format);
    forall a | a in out.alerts ensures |encode(a)| <= 330 { AlertLength(a, format); }
    ListLength(out.alerts, encode, MAX_LIST_LIMIT, 330);
    FrameLength(out.target, out.observedAt, format,
                "alerts", EncodeList(out.alerts, encode), "truncated", out.truncated);
  }

  lemma ScrapeLength(s: ScrapeHealth, format: Instant -> string)
    requires Rfc3339(format) && Identifier(s.id) && MaybeEncodable(s.sampledAt)
    ensures |ScrapeText(s, format)| <= 160
  {
    IdentifierLength(s.id);
    QuoteAtMostSix(s.state.Text(), 7);
    OptionalTimeLength("sampledAt", s.sampledAt, format);
  }

  lemma ScrapesLength(out: ScrapesOutput, format: Instant -> string)
    requires Rfc3339(format) && ScrapesShape(out) && ScrapesTimes(out)
    ensures |EncodeScrapes(out, format)| <= 8_500
  {
    var encode := EncodeScrape(format);
    forall s | s in out.scrapes ensures |encode(s)| <= 160 { ScrapeLength(s, format); }
    ListLength(out.scrapes, encode, MAX_LIST_LIMIT, 160);
    FrameLength(out.target, out.observedAt, format,
                "scrapes", EncodeList(out.scrapes, encode), "partial", out.partial);
  }

  lemma FluxKindLength(kind: string)
    requires FluxResourceKind(kind)
    ensures |Quote(kind)| <= 80
  {
    QuoteAtMostSix(kind, 13);
  }

  lemma FluxReasonLength(reason: ReconciliationReason)
    ensures |Quote(reason.Text())| <= 128
  {
    QuoteAtMostSix(reason.Text(), 21);
  }

  lemma ReconciliationLength(r: Reconciliation, format: Instant -> string)
    requires Rfc3339(format) && ReconciliationShape(r) && MaybeEncodable(r.transitionedAt)
    ensures |ReconciliationText(r, format)| <= 680
  {
    IdentifierLength(r.scope);
    FluxKindLength(r.kind);
    ObjectNameLength(r.name);
    QuoteAtMostSix(r.state.Text(), 7);
    FluxReasonLength(r.reason);
    OptionalTimeLength("transitionedAt", r.transitionedAt, format);
  }

  lemma ReconciliationsLength(out: ReconciliationsOutput, format: Instant -> string)
    requires Rfc3339(format) && ReconciliationsShape(out) && ReconciliationsTimes(out)
    ensures |EncodeReconciliations(out, format)| <= 34_500
  {
    var encode := EncodeReconciliation(format);
    forall r | r in out.reconciliations ensures |encode(r)| <= 680 { ReconciliationLength(r, format); }
    ListLength(out.reconciliations, encode, MAX_LIST_LIMIT, 680);
    FrameLength(out.target, out.observedAt, format,
                "reconciliations", EncodeList(out.reconciliations, encode), "truncated", out.truncated);
  }

  lemma WarningLength(w: HealthWarning)
    requires CountFits(w.count)
    ensures |EncodeWarning(w)| <= 160
  {
    QuoteAtMostSix(w.code.Text(), 19);
    DecimalLength(w.count);
  }

  lemma CountsLength(out: ClusterHealthOutput)
    requires ClusterHealthShape(out)
    ensures |EncodeNodes(out)| <= 60 && |EncodeSummary(out)| <= 100
  {
    DecimalLength(out.nodesTotal);
    DecimalLength(out.nodesReady);
    DecimalLength(out.workloadsTotal);
    DecimalLength(out.workloadsReady);
    DecimalLength(out.workloadsUnhealthy);
  }

  lemma ClusterHealthLength(out: ClusterHealthOutput, format: Instant -> string)
    requires Rfc3339(format) && ClusterHealthShape(out) && Encodable(out.observedAt)
    ensures |EncodeClusterHealth(out, format)| <= 1_200
  {
    IdentifierLength(out.target);
    QuoteAtMostSix(out.status.Text(), 8);
    CountsLength(out);
    assert |format(out.observedAt)| <= 30;
    forall w | w in out.warnings ensures |EncodeWarning(w)| <= 160 { WarningLength(w); }
    ListLength(out.warnings, EncodeWarning, 3, 160);
  }

  lemma CapabilityLength(c: Capability)
    requires !c.OtherCapability?
    ensures |EncodeCapability(c)| <= 182
  {
    QuoteAtMostSix(c.Text(), 30);
  }

  lemma TargetKindLength(kind: TargetKind)
    requires !kind.OtherKind?
    ensures |Quote(kind.Text())| <= 62
  {
    QuoteAtMostSix(kind.Text(), 10);
  }

  lemma TargetLength(t: TargetInfo)
    requires TargetShape(t)
    ensures |EncodeTarget(t)| <= 520
  {
    IdentifierLength(t.id);
    TargetKindLength(t.kind);
    forall c | c in t.capabilities ensures |EncodeCapability(c)| <= 182 { CapabilityLength(c); }
    ListLength(t.capabilities, EncodeCapability, 2, 182);
  }

  lemma TargetsLength(targets: seq<TargetInfo>)
    requires TargetsShape(targets)
    ensures |EncodeTargets(targets)| <= 17_000
  {
    forall t | t in targets ensures |EncodeTarget(t)| <= 520 { TargetLength(t); }
    ListLength(targets, EncodeTarget, MAX_TARGETS, 520);
  }

  // -------------------------------------------------------------------- lists

  function EncodeEach<T>(items: seq<T>, encode: T -> string): (texts: seq<string>)
    ensures |texts| == |items| && forall i | 0 <= i < |items| :: texts[i] == encode(items[i])
  {
    seq(|items|, i requires 0 <= i < |items| => encode(items[i]))
  }

  /** The text of a list is the texts of its items joined by commas, in order. */
  lemma {:induction false} ItemsAreJoined<T>(items: seq<T>, encode: T -> string)
    ensures EncodeItems(items, encode) == if items == [] then "" else Join(EncodeEach(items, encode), ',')
  {
    if |items| > 1 {
      ItemsAreJoined(items[1..], encode);
      assert EncodeEach(items, encode)[1..] == EncodeEach(items[1..], encode);
    }
  }

  // -------------------------------------------------------------- main results

  lemma SmallResultsPass(encoded: Option<string>)
    requires encoded.Some? ==> |encoded.value| <= MAX_ENCODED_RESULT_BYTES
    ensures CheckResultSize(encoded) != Some(Value(ResultTooLarge))
    ensures CheckResultSize(encoded).None? <==> encoded.Some?
  {
  }

  /**
   No output of the shape the adapters build is ever too large. The check passes exactly when the
   instants can be encoded; if one cannot, the whole observation fails with an encoding error.
   */
  lemma WorkloadsNeverTooLarge(out: WorkloadsOutput, format: Instant -> string)
    requires Rfc3339(format) && WorkloadsShape(out)
    ensures CheckResultSize(MarshalWorkloads(out, format)) != Some(Value(ResultTooLarge))
    ensures CheckResultSize(MarshalWorkloads(out, format)).None? <==> WorkloadsTimes(out)
  {
    if WorkloadsTimes(out) { WorkloadsLength(out, format); }
    SmallResultsPass(MarshalWorkloads(out, format));
  }

  lemma AlertsNeverTooLarge(out: AlertsOutput, format: Instant -> string)
    requires Rfc3339(format) && AlertsShape(out)
    ensures CheckResultSize(MarshalAlerts(out, format)) != Some(Value(ResultTooLarge))
    ensures CheckResultSize(MarshalAlerts(out, format)).None? <==> AlertsTimes(out)
  {
    if AlertsTimes(out) { AlertsLength(out, format); }
    SmallResultsPass(MarshalAlerts(out, format));
  }

  lemma ScrapesNeverTooLarge(out: ScrapesOutput, format: Instant -> string)
    requires Rfc3339(format) && ScrapesShape(out)
    ensures CheckResultSize(MarshalScrapes(out, format)) != Some(Value(ResultTooLarge))
    ensures CheckResultSize(MarshalScrapes(out, format)).None? <==> ScrapesTimes(out)
  {
    if ScrapesTimes(out) { ScrapesLength(out, format); }
    SmallResultsPass(MarshalScrapes(out, format));
  }

  lemma ReconciliationsNeverTooLarge(out: ReconciliationsOutput, format: Instant -> string)
    requires Rfc3339(format) && ReconciliationsShape(out)
    ensures CheckResultSize(MarshalReconciliations(out, format)) != Some(Value(ResultTooLarge))
    ensures CheckResultSize(MarshalReconciliations(out, format)).None? <==> ReconciliationsTimes(out)
  {
    if ReconciliationsTimes(out) { ReconciliationsLength(out, format); }
    SmallResultsPass(MarshalReconciliations(out, format));
  }

  lemma ClusterHealthNeverTooLarge(out: ClusterHealthOutput, format: Instant -> string)
    requires Rfc3339(format) && ClusterHealthShape(out)
    ensures CheckResultSize(MarshalClusterHealth(out, format)) != Some(Value(ResultTooLarge))
    ensures CheckResultSize(MarshalClusterHealth(out, format)).None? <==> Encodable(out.observedAt)
  {
    if Encodable(out.observedAt) { ClusterHealthLength(out, format); }
    SmallResultsPass(MarshalClusterHealth(out, format));
  }

  lemma TargetsNeverTooLarge(targets: seq<TargetInfo>)
    requires TargetsShape(targets)
    ensures CheckResultSize(Some(EncodeTargets(targets))).None?
  {
    TargetsLength(targets);
  }
}
