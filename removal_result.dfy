/** The outcome of one removal attempt, and its three-way classification. */
module RemovalResult {
  import opened Wrappers

  datatype RemovalOutcome =
    | Submitted
    | RequiresEmailVerification(email: string, sentTo: string)
    | RequiresCaptcha(captchaUrl: string)
    | RequiresAccountCreation
    | Failed(reason: string, errorDetails: Option<string>)

  /** `requires_user_action`. */
  predicate RequiresUserAction(o: RemovalOutcome) {
    o.RequiresEmailVerification? || o.RequiresCaptcha? || o.RequiresAccountCreation?
  }

  /** `is_failure`. */
  predicate IsFailure(o: RemovalOutcome) {
    o.Failed?
  }

  /** `is_success`. */
  predicate IsSuccess(o: RemovalOutcome) {
    o.Submitted?
  }

  /** Every outcome is exactly one of: a success, a failure, or waiting on the user. */
  lemma ExactlyOneClass(o: RemovalOutcome)
    ensures IsSuccess(o) || IsFailure(o) || RequiresUserAction(o)
    ensures !(IsSuccess(o) && IsFailure(o))
    ensures !(IsSuccess(o) && RequiresUserAction(o))
    ensures !(IsFailure(o) && RequiresUserAction(o))
  {
  }

  /** A CAPTCHA waits on the user and is neither a success nor a failure; a failure never succeeds. */
  lemma ClassExamples(url: string, reason: string)
    ensures RequiresUserAction(RequiresCaptcha(url)) && !IsSuccess(RequiresCaptcha(url)) && !IsFailure(RequiresCaptcha(url))
    ensures !RequiresUserAction(Submitted) && IsSuccess(Submitted) && !IsFailure(Submitted)
    ensures IsFailure(Failed(reason, None)) && !IsSuccess(Failed(reason, None))
  {
  }
}
