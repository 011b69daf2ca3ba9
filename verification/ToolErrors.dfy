/**
 What becomes of an error on its way out: the server replaces it by one of a closed list of safe errors,
 and the audit log classifies what is left. The two go through the errors in different orders.
 */
module ToolErrors {
  import opened Errors

  /** The outcome categories of schema version 1. */
  datatype Outcome =
    | AuditSuccess
    | AuditValidationError
    | AuditTargetNotConfigured
    | AuditScopeNotConfigured
    | AuditSourceTimeout
    | AuditSourceUnavailable
    | AuditSourceRejected
    | AuditCredentialUnavailable
    | AuditInvalidSourceResponse
    | AuditResultTooLarge
    | AuditCanceled
    | AuditUnsupportedTool
    | AuditInternalError
  {
    function Text(): string {
      match this
      case AuditSuccess => "success"
      case AuditValidationError => "validation_error"
      case AuditTargetNotConfigured => "target_not_configured"
      case AuditScopeNotConfigured => "scope_not_configured"
      case AuditSourceTimeout => "source_timeout"
      case AuditSourceUnavailable => "source_unavailable"
      case AuditSourceRejected => "source_rejected"
      case AuditCredentialUnavailable => "credential_unavailable"
      case AuditInvalidSourceResponse => "invalid_source_response"
      case AuditResultTooLarge => "result_too_large"
      case AuditCanceled => "canceled"
      case AuditUnsupportedTool => "unsupported_tool"
      case AuditInternalError => "internal_error"
    }
  }

  /** `safeToolError`. */
  function SafeToolError(err: Error): Error {
    var validation := FindValidation(err);
    if validation.Some? then validation.value
    else if Is(err, ContextCanceled) then Value(ObservationCanceled)
    else if Is(err, ResultTooLarge) then Value(ResultTooLarge)
    else if Is(err, KubernetesTimeout) then Value(KubernetesTimeout)
    else if Is(err, KubernetesUnavailable) then Value(KubernetesUnavailable)
    else if Is(err, KubernetesRejected) then Value(KubernetesRejected)
    else if Is(err, KubernetesCredentialUnavailable) then Value(KubernetesCredentialUnavailable)
    else if Is(err, KubernetesInvalidResponse) then Value(KubernetesInvalidResponse)
    else if Is(err, KubernetesUnknownScope) then Value(KubernetesUnknownScope)
    else if Is(err, FluxUnknownScope) then Value(FluxUnknownScope)
    else if Is(err, SourceTimeout) then Value(SourceTimeout)
    else if Is(err, SourceUnavailable) then Value(SourceUnavailable)
    else if Is(err, SourceRejected) then Value(SourceRejected)
    else if Is(err, SourceCredentialUnavailable) then Value(SourceCredentialUnavailable)
    else if Is(err, SourceInvalidResponse) then Value(SourceInvalidResponse)
    else Value(ObservationFailed)
  }

  /** The part of `auditOutcome` that classifies a tool error. */
  function ToolErrorOutcome(err: Error): Outcome {
    if FindValidation(err).Some? then AuditValidationError
    else if Is(err, TargetNotConfigured) then AuditTargetNotConfigured
    else if Is(err, KubernetesUnknownScope) then AuditScopeNotConfigured
    else if Is(err, FluxUnknownScope) then AuditScopeNotConfigured
    else if Is(err, KubernetesTimeout) then AuditSourceTimeout
    else if Is(err, KubernetesUnavailable) then AuditSourceUnavailable
    else if Is(err, KubernetesRejected) then AuditSourceRejected
    else if Is(err, KubernetesCredentialUnavailable) then AuditCredentialUnavailable
    else if Is(err, KubernetesInvalidResponse) then AuditInvalidSourceResponse
    else if Is(err, SourceTimeout) then AuditSourceTimeout
    else if Is(err, SourceUnavailable) then AuditSourceUnavailable
    else if Is(err, SourceRejected) then AuditSourceRejected
    else if Is(err, SourceCredentialUnavailable) then AuditCredentialUnavailable
    else if Is(err, SourceInvalidResponse) then AuditInvalidSourceResponse
    else if Is(err, ResultTooLarge) then AuditResultTooLarge
    else if Is(err, ObservationCanceled) then AuditCanceled
    else if Is(err, ObservationFailed) then AuditInternalError
    else AuditValidationError
  }

  // ------------------------------------------------------------ specification

  /** The order in which the server looks for the sentinels it tells apart; it ignores those from 14. */
  function Rank(s: Sentinel): nat {
    match s
    case ContextCanceled => 0
    case ResultTooLarge => 1
    case KubernetesTimeout => 2
    case KubernetesUnavailable => 3
    case KubernetesRejected => 4
    case KubernetesCredentialUnavailable => 5
    case KubernetesInvalidResponse => 6
    case KubernetesUnknownScope => 7
    case FluxUnknownScope => 8
    case SourceTimeout => 9
    case SourceUnavailable => 10
    case SourceRejected => 11
    case SourceCredentialUnavailable => 12
    case SourceInvalidResponse => 13
    case _ => 14
  }

  /** The category of each of them. */
  function Category(s: Sentinel): Outcome {
    match s
    case ContextCanceled => AuditCanceled
    case ObservationCanceled => AuditCanceled
    case ResultTooLarge => AuditResultTooLarge
    case KubernetesTimeout => AuditSourceTimeout
    case SourceTimeout => AuditSourceTimeout
    case KubernetesUnavailable => AuditSourceUnavailable
    case SourceUnavailable => AuditSourceUnavailable
    case KubernetesRejected => AuditSourceRejected
    case SourceRejected => AuditSourceRejected
    case KubernetesCredentialUnavailable => AuditCredentialUnavailable
    case SourceCredentialUnavailable => AuditCredentialUnavailable
    case KubernetesInvalidResponse => AuditInvalidSourceResponse
    case SourceInvalidResponse => AuditInvalidSourceResponse
    case KubernetesUnknownScope => AuditScopeNotConfigured
    case FluxUnknownScope => AuditScopeNotConfigured
    case TargetNotConfigured => AuditTargetNotConfigured
    case ObservationFailed => AuditInternalError
    case ContextDeadlineExceeded => AuditInternalError
  }

  /** `s` is the first ranked sentinel that the tree contains. */
  ghost predicate FirstMatch(err: Error, s: Sentinel) {
    Is(err, s) && Rank(s) < 14 && forall t | Rank(t) < Rank(s) :: !Is(err, t)
  }

  ghost predicate NoMatch(err: Error) {
    forall t | Rank(t) < 14 :: !Is(err, t)
  }

  /** An error a client may see: a validation error, or one of the server's own values. */
  predicate Public(err: Error) {
    || err.Validation?
    || (err.Value? && (0 < Rank(err.sentinel) < 14 || err.sentinel == TargetNotConfigured
                       || err.sentinel == ObservationFailed || err.sentinel == ObservationCanceled))
  }

  // -------------------------------------------------------------- main results

  /** What the server makes of the first match, and of a tree without one. */
  lemma SafeErrorIsFirstMatch(err: Error, s: Sentinel)
    requires !HasValidation(err)
    ensures FirstMatch(err, s) ==>
              SafeToolError(err) == Value(if s == ContextCanceled then ObservationCanceled else s)
    ensures NoMatch(err) ==> SafeToolError(err) == Value(ObservationFailed)
  {
    hide Is, FindValidation;
    FindIffHas(err);
  }

  /** A ranked value other than a cancellation comes out as it is. */
  lemma PublicValuesPass(s: Sentinel)
    requires 0 < Rank(s) < 14
    ensures SafeToolError(Value(s)) == Value(s)
  {
    hide SafeToolError;
    LeafError(Value(s));
    FindIffHas(Value(s));
    assert FirstMatch(Value(s), s);
    SafeErrorIsFirstMatch(Value(s), s);
  }

  /** Wrapping an error with `%w` does not change what comes out. */
  lemma WrappingIsTransparent(text: string, err: Error)
    ensures SafeToolError(Wrapped(text, err)) == SafeToolError(err)
  {
    hide Is, FindValidation;
    assert FindValidation(Wrapped(text, err)) == FindValidation(err) by { WrappedSearch(text, err); }
    forall s ensures Is(Wrapped(text, err), s) <==> Is(err, s) {
      WrappedSearch(text, err);
    }
  }

  lemma WrappedSearch(text: string, err: Error)
    ensures FindValidation(Wrapped(text, err)) == FindValidation(err)
    ensures forall s :: Is(Wrapped(text, err), s) <==> Is(err, s)
  {
  }

  /** A tree without a validation error has a first match or none. */
  lemma FirstMatchExists(err: Error)
    ensures NoMatch(err) || exists s :: FirstMatch(err, s)
  {
    if s :| Is(err, s) && Rank(s) < 14 {
      DescendToFirst(err, s);
    }
  }

  lemma {:induction false} DescendToFirst(err: Error, s: Sentinel)
    requires Is(err, s) && Rank(s) < 14
    ensures exists t :: FirstMatch(err, t)
    decreases Rank(s)
  {
    if t :| Is(err, t) && Rank(t) < Rank(s) {
      DescendToFirst(err, t);
    } else {
      assert FirstMatch(err, s);
    }
  }

  /** Whatever the tree, what comes out is public, and it is a validation error exactly if one was inside. */
  lemma SafeErrorsArePublic(err: Error)
    ensures Public(SafeToolError(err))
    ensures SafeToolError(err).Validation? <==> HasValidation(err)
    ensures SafeToolError(err) != Value(TargetNotConfigured)
  {
    hide Is, FirstMatch, SafeToolError;
    if HasValidation(err) {
      ValidationPasses(err);
    } else {
      FirstMatchExists(err);
      if s :| FirstMatch(err, s) {
        RankOfMatch(err, s);
        SafeErrorIsFirstMatch(err, s);
      } else {
        SafeErrorIsFirstMatch(err, ContextCanceled);
      }
    }
  }

  lemma RankOfMatch(err: Error, s: Sentinel)
    requires FirstMatch(err, s)
    ensures Rank(s) < 14
  {
  }

  lemma ValidationPasses(err: Error)
    requires HasValidation(err)
    ensures SafeToolError(err).Validation?
  {
    hide Is, FindValidation;
    FindIffHas(err);
  }

  /** A public error is classified by its own category. */
  lemma PublicErrorOutcome(err: Error)
    requires Public(err)
    ensures err.Validation? ==> ToolErrorOutcome(err) == AuditValidationError
    ensures err.Value? ==> ToolErrorOutcome(err) == Category(err.sentinel)
  {
    hide Is, FindValidation, Category;
    LeafError(err);
    if err.Value? {
      CategoryOfPublic(err);
    }
  }

  lemma CategoryOfPublic(err: Error)
    requires err.Value? && Public(err)
    ensures ToolErrorOutcome(err) == Category(err.sentinel)
  {
    hide Is, FindValidation;
    LeafError(err);
    match err.sentinel
    case ContextCanceled => assert false;
    case ContextDeadlineExceeded => assert false;
    case _ =>
  }

  lemma LeafError(err: Error)
    requires err.Validation? || err.Value?
    ensures FindValidation(err).Some? <==> err.Validation?
    ensures forall s :: Is(err, s) <==> err.Value? && err.sentinel == s
  {
  }

  /**
   The two classifications compose: the outcome of a source error is the category of its first match in
   the server's order, an internal error without a match, and a validation error only for a validation
   error, although the audit log falls back on that for errors it does not know.
   */
  lemma OutcomeIsCategoryOfFirstMatch(err: Error)
    ensures ToolErrorOutcome(SafeToolError(err)) == AuditValidationError <==> HasValidation(err)
    ensures !HasValidation(err) && NoMatch(err) ==> ToolErrorOutcome(SafeToolError(err)) == AuditInternalError
    ensures forall s | !HasValidation(err) && FirstMatch(err, s) ::
              ToolErrorOutcome(SafeToolError(err)) == Category(s)
  {
    hide Is, FirstMatch, NoMatch, SafeToolError, ToolErrorOutcome;
    SafeErrorsArePublic(err);
    PublicErrorOutcome(SafeToolError(err));
    if !HasValidation(err) {
      SafeErrorIsFirstMatch(err, ContextCanceled);
      forall s | FirstMatch(err, s) ensures ToolErrorOutcome(SafeToolError(err)) == Category(s) {
        SafeErrorIsFirstMatch(err, s);
      }
    }
  }

  /**
   Which errors the log takes for validation errors: the trees with one, and those without any value of the
   server's, such as the plain errors made before a handler runs.
   */
  lemma UnknownErrorsAreValidationFailures(err: Error)
    ensures ToolErrorOutcome(err) == AuditValidationError
       <==> || HasValidation(err)
            || forall s | s != ContextCanceled && s != ContextDeadlineExceeded :: !Is(err, s)
  {
    hide Is, FindValidation;
    FindIffHas(err);
    if s :| s != ContextCanceled && s != ContextDeadlineExceeded && Is(err, s) {
      if !HasValidation(err) { KnownErrorOutcome(err, s); }
    }
  }

  lemma KnownErrorOutcome(err: Error, s: Sentinel)
    requires Is(err, s) && s != ContextCanceled && s != ContextDeadlineExceeded && FindValidation(err).None?
    ensures ToolErrorOutcome(err) != AuditValidationError
  {
    hide Is, FindValidation;
  }
}
