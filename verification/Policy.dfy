/**
 The policy applied at the public boundary: input validation and defaults, the normalisation of
 source text to small allowlists, and the encoded-size limit.
 */
module Policy {
  import opened Text
  import opened Errors
  import opened Contracts

  function ValidateIdentifier(field: string, value: string): Option<Error> {
    if Identifier(value) then None
    else Some(Validation(field, "must be 1 to 32 lowercase letters, digits, or hyphens"))
  }

  function NormalizeListLimit(limit: int): Result<int> {
    if limit == 0 then Ok(DEFAULT_LIST_LIMIT)
    else if limit < 1 || limit > MAX_LIST_LIMIT then Err(Validation("limit", "must be from 1 to 50"))
    else Ok(limit)
  }

  /** `Normalize` of the workload input, which spells out the default and the limit. */
  function NormalizeWorkloadsInput(input: ScopedListInput): Result<ScopedListInput> {
    var target := ValidateIdentifier("target", input.target);
    var scope := if input.scope != "" then ValidateIdentifier("scope", input.scope) else None;
    if target.Some? then Err(target.value)
    else if scope.Some? then Err(scope.value)
    else
      var limit := if input.limit == 0 then DEFAULT_LIST_LIMIT else input.limit;
      if limit < 1 || limit > MAX_LIST_LIMIT then Err(Validation("limit", "must be from 1 to 50"))
      else Ok(input.(limit := limit))
  }

  /** `Normalize` of the Flux input, which shares `normalizeListLimit`. */
  function NormalizeReconciliationsInput(input: ScopedListInput): Result<ScopedListInput> {
    var target := ValidateIdentifier("target", input.target);
    var scope := if input.scope != "" then ValidateIdentifier("scope", input.scope) else None;
    if target.Some? then Err(target.value)
    else if scope.Some? then Err(scope.value)
    else
      var limit := NormalizeListLimit(input.limit);
      if limit.Err? then Err(limit.error) else Ok(input.(limit := limit.value))
  }

  function NormalizeAlertsInput(input: AlertsInput): Result<AlertsInput> {
    var target := ValidateIdentifier("target", input.target);
    if target.Some? then Err(target.value)
    else
      var limit := NormalizeListLimit(input.limit);
      if limit.Err? then Err(limit.error) else Ok(input.(limit := limit.value))
  }

  /** What normalised input is: a fixed point with identifiers and a limit from 1 to 50, by default 20. */
  lemma NormalizedInputIsStable(input: ScopedListInput)
    ensures NormalizeReconciliationsInput(input) == NormalizeWorkloadsInput(input)
    ensures var r := NormalizeWorkloadsInput(input);
            && (r.Ok? <==> Identifier(input.target) && (input.scope == "" || Identifier(input.scope))
                           && 0 <= input.limit <= 50)
            && (r.Err? ==> r.error.Validation?)
            && (r.Ok? ==> 1 <= r.value.limit <= 50 && NormalizeWorkloadsInput(r.value) == r)
            && (r.Ok? ==> r.value == input.(limit := if input.limit == 0 then 20 else input.limit))
  {
  }

  /** The same for the alert input. */
  lemma NormalizedAlertsInputIsStable(input: AlertsInput)
    ensures var r := NormalizeAlertsInput(input);
            && (r.Ok? <==> Identifier(input.target) && 0 <= input.limit <= 50)
            && (r.Err? ==> r.error.Validation?)
            && (r.Ok? ==> r.value == input.(limit := if input.limit == 0 then 20 else input.limit))
            && (r.Ok? ==> NormalizeAlertsInput(r.value) == r)
  {
  }

  // ------------------------------------------------------------ normalisation

  /**
   `strings.ToLower`, as far as comparing the result with an ASCII word goes. Two characters outside
   ASCII have an ASCII lower case: U+0130 (bytes C4 B0) is 'i' and U+212A (bytes E2 84 AA) is 'k'.
   */
  function ToLower(s: string): string {
    if s == "" then ""
    else if |s| >= 2 && s[0] == '\U{C4}' && s[1] == '\U{B0}' then ['i'] + ToLower(s[2..])
    else if |s| >= 3 && s[0] == '\U{E2}' && s[1] == '\U{84}' && s[2] == '\U{AA}' then ['k'] + ToLower(s[3..])
    else [LowerByte(s[0])] + ToLower(s[1..])
  }

  function LowerByte(c: char): char {
    if Upper(c) then ((c as int) + 32) as char else c
  }

  function NormalizeAlertSeverity(severity: string): AlertSeverity {
    SeverityOf(ToLower(severity))
  }

  function SeverityOf(lower: string): AlertSeverity {
    if lower == "critical" then Critical
    else if lower == "warning" || lower == "warn" then Warning
    else if lower == "info" || lower == "informational" then Info
    else SeverityUnknown
  }

  function NormalizeReconciliationReason(reason: string): ReconciliationReason {
    if reason == "DependencyNotReady" then DependencyNotReady
    else if reason == "HealthCheckFailed" then HealthCheckFailed
    else if reason == "ReconciliationFailed" || reason == "BuildFailed" then ReconciliationFailed
    else if reason == "ArtifactFailed" then ArtifactFailed
    else if reason == "AuthenticationFailed" then AuthenticationFailed
    else if reason == "SourceUnavailable" || reason == "GitOperationFailed" then SourceNotAvailable
    else if reason == "Suspended" then Suspended
    else OtherReason
  }

  function NormalizeWorkloadReason(reason: string): WorkloadReason {
    if reason == "NotReady" || reason == "MinimumReplicasUnavailable" then NotReady
    else if reason == "ReplicaFailure" || reason == "FailedCreate" then ReplicaFailure
    else if reason == "ProgressDeadlineExceeded" then ProgressDeadline
    else if reason == "Unschedulable" then Unschedulable
    else ReasonUnknown
  }

  const ENCODE_ERROR: Error := Wrapped("encode observation", Plain("time out of range"))

  /** `CheckResultSize` on what `json.Marshal` gave: nothing when some instant cannot be encoded. */
  function CheckResultSize(encoded: Option<string>): Option<Error> {
    if encoded.None? then Some(ENCODE_ERROR)
    else if |encoded.value| > MAX_ENCODED_RESULT_BYTES then Some(Value(ResultTooLarge))
    else None
  }

  /** A result that passes the size check, or an error that is not about size. */
  predicate Fits<O>(r: Result<O>, encode: O -> Option<string>) {
    if r.Ok? then CheckResultSize(encode(r.value)).None? else !Is(r.error, ResultTooLarge)
  }

  // ------------------------------------------------------------------- tables

  /** The source texts of each workload reason; every other text is unknown. */
  function WorkloadReasonTexts(r: WorkloadReason): set<string> {
    match r
    case NotReady => {"NotReady", "MinimumReplicasUnavailable"}
    case ReplicaFailure => {"ReplicaFailure", "FailedCreate"}
    case ProgressDeadline => {"ProgressDeadlineExceeded"}
    case Unschedulable => {"Unschedulable"}
    case ReasonUnknown => {}
  }

  lemma WorkloadReasonTable(text: string, r: WorkloadReason)
    requires r != ReasonUnknown
    ensures NormalizeWorkloadReason(text) == r <==> text in WorkloadReasonTexts(r)
  {
    assert text in WorkloadReasonTexts(r) ==> NormalizeWorkloadReason(text) == r;
  }

  /** The source texts of each Flux reason; every other text is unknown. */
  function ReconciliationReasonTexts(r: ReconciliationReason): set<string> {
    match r
    case DependencyNotReady => {"DependencyNotReady"}
    case HealthCheckFailed => {"HealthCheckFailed"}
    case ReconciliationFailed => {"ReconciliationFailed", "BuildFailed"}
    case ArtifactFailed => {"ArtifactFailed"}
    case AuthenticationFailed => {"AuthenticationFailed"}
    case SourceNotAvailable => {"SourceUnavailable", "GitOperationFailed"}
    case Suspended => {"Suspended"}
    case OtherReason => {}
  }

  lemma ReconciliationReasonTable(text: string, r: ReconciliationReason)
    requires r != OtherReason
    ensures NormalizeReconciliationReason(text) == r <==> text in ReconciliationReasonTexts(r)
  {
    assert text in ReconciliationReasonTexts(r) ==> NormalizeReconciliationReason(text) == r;
  }

  /** The severities as sources spell them, in lower case. */
  function SeverityTexts(s: AlertSeverity): set<string> {
    match s
    case Critical => {"critical"}
    case Warning => {"warning", "warn"}
    case Info => {"info", "informational"}
    case SeverityUnknown => {}
  }

  /** `b` is `c`, or `c` is its lower case. */
  predicate SpellsByte(b: char, c: char) {
    b == c || (Upper(b) && (b as int) + 32 == (c as int))
  }

  /** `text` spells `word` in letters of either case. */
  predicate Spells(text: string, word: string) {
    |text| == |word| && forall i | 0 <= i < |text| :: SpellsByte(text[i], word[i])
  }

  /** For ASCII text the severity is that of the one word it spells, whatever the case of its letters. */
  lemma SeverityTable(text: string, s: AlertSeverity)
    requires s != SeverityUnknown && forall i | 0 <= i < |text| :: (text[i] as int) < 0x80
    ensures NormalizeAlertSeverity(text) == s <==> exists word | word in SeverityTexts(s) :: Spells(text, word)
  {
    hide ToLower, Spells;
    SeverityWordsDiffer(ToLower(text), s);
    forall word | word in SeverityTexts(s) ensures ToLower(text) == word <==> Spells(text, word) {
      LowersToWhatItSpells(text, word);
    }
  }

  lemma SeverityWordsDiffer(lower: string, s: AlertSeverity)
    requires s != SeverityUnknown
    ensures lower in SeverityTexts(s) <==> SeverityOf(lower) == s
    ensures forall word | word in SeverityTexts(s) :: forall i | 0 <= i < |word| :: !Upper(word[i])
  {
  }

  lemma {:induction false} LowersToWhatItSpells(text: string, word: string)
    requires forall i | 0 <= i < |text| :: (text[i] as int) < 0x80
    requires forall i | 0 <= i < |word| :: !Upper(word[i])
    ensures ToLower(text) == word <==> Spells(text, word)
  {
    if text != "" && word != "" {
      hide ToLower, Spells;
      LowersToWhatItSpells(text[1..], word[1..]);
      LowerHead(text);
      SpellsHead(text, word);
      var head, rest := LowerByte(text[0]), ToLower(text[1..]);
      assert word == [word[0]] + word[1..] && ([head] + rest)[1..] == rest;
      assert [head] + rest == word <==> head == word[0] && rest == word[1..];
    }
  }

  lemma LowerHead(text: string)
    requires text != "" && (text[0] as int) < 0x80
    ensures ToLower(text) == [LowerByte(text[0])] + ToLower(text[1..])
  {
  }

  lemma SpellsHead(text: string, word: string)
    requires text != "" && word != ""
    ensures Spells(text, word) <==> SpellsByte(text[0], word[0]) && Spells(text[1..], word[1..])
  {
    hide SpellsByte;
    if SpellsByte(text[0], word[0]) && Spells(text[1..], word[1..]) {
      forall i | 0 <= i < |text| ensures SpellsByte(text[i], word[i]) {
        if i > 0 { assert text[i] == text[1..][i - 1] && word[i] == word[1..][i - 1]; }
      }
    }
  }
}
