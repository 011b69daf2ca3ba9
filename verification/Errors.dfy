/**
 Go errors as trees: sentinel values, validation errors, plain errors, `%w` wrapping and joins, with
 `errors.Is` and `errors.As` as searches of the tree.
 */
module Errors {

  datatype Option<+T> = None | Some(value: T)
  {
    function GetOr(default: T): T {
      if Some? then value else default
    }
  }

  datatype Result<+T> = Ok(value: T) | Err(error: Error)

  /** The package-level error values the server tells apart. */
  datatype Sentinel =
    | ContextCanceled
    | ContextDeadlineExceeded
    | ResultTooLarge
    | KubernetesTimeout
    | KubernetesUnavailable
    | KubernetesRejected
    | KubernetesCredentialUnavailable
    | KubernetesInvalidResponse
    | KubernetesUnknownScope
    | FluxUnknownScope
    | SourceTimeout
    | SourceUnavailable
    | SourceRejected
    | SourceCredentialUnavailable
    | SourceInvalidResponse
    | TargetNotConfigured
    | ObservationFailed
    | ObservationCanceled

  datatype Error =
    | Validation(field: string, reason: string)
    | Value(sentinel: Sentinel)
    | Plain(text: string)
    | Wrapped(text: string, inner: Error)
    | Joined(parts: seq<Error>)

  /** `errors.Is(err, sentinel)`. */
  predicate Is(err: Error, sentinel: Sentinel) {
    match err
    case Value(s) => s == sentinel
    case Wrapped(_, inner) => Is(inner, sentinel)
    case Joined(parts) => exists i | 0 <= i < |parts| :: Is(parts[i], sentinel)
    case _ => false
  }

  /** `errors.As(err, &validationError)`: the first validation error in depth-first order. */
  function FindValidation(err: Error): (found: Option<Error>)
    ensures found.Some? ==> found.value.Validation?
    decreases err, 0
  {
    match err
    case Validation(_, _) => Some(err)
    case Wrapped(_, inner) => FindValidation(inner)
    case Joined(parts) => FindAmong(parts)
    case _ => None
  }

  function FindAmong(errs: seq<Error>): (found: Option<Error>)
    ensures found.Some? ==> found.value.Validation?
    decreases errs, 1
  {
    if errs == [] then None
    else
      var first := FindValidation(errs[0]);
      if first.Some? then first else FindAmong(errs[1..])
  }

  /** The tree has a validation error somewhere. */
  ghost predicate HasValidation(err: Error) {
    match err
    case Validation(_, _) => true
    case Wrapped(_, inner) => HasValidation(inner)
    case Joined(parts) => exists i | 0 <= i < |parts| :: HasValidation(parts[i])
    case _ => false
  }

  lemma {:induction false} FindIffHas(err: Error)
    ensures FindValidation(err).Some? <==> HasValidation(err)
    decreases err, 0
  {
    match err
    case Wrapped(_, inner) => FindIffHas(inner);
    case Joined(parts) => FindAmongIffHas(parts);
    case _ =>
  }

  lemma {:induction false} FindAmongIffHas(errs: seq<Error>)
    ensures FindAmong(errs).Some? <==> exists i | 0 <= i < |errs| :: HasValidation(errs[i])
    decreases errs, 1
  {
    if errs != [] {
      FindIffHas(errs[0]);
      FindAmongIffHas(errs[1..]);
      if FindAmong(errs[1..]).Some? {
        var i :| 0 <= i < |errs[1..]| && HasValidation(errs[1..][i]);
        assert HasValidation(errs[i + 1]);
      }
      if i :| 0 <= i < |errs| && HasValidation(errs[i]) {
        if i > 0 { assert HasValidation(errs[1..][i - 1]); }
      }
    }
  }
}
