/**
 * The removal worker's deterministic parts: the retry loop with its backoff
 * schedule, the mapping of profile fields to form fields, and the database
 * status chosen for each removal outcome. The awaited task, the sleeps and
 * the clock are parameters or results; decryption is a parameter.
 */
module RemovalWorker {
  import opened Wrappers
  import opened Ints
  import VP = VaultProfile
  import RR = RemovalResult

  // ---------------------------------------------------------------------
  // retry_with_backoff
  // ---------------------------------------------------------------------

  /** The pause, in seconds, after failed attempt `attempt` (counting from 1): 30 s, 2 min, then 5 min. */
  function BackoffDelay(attempt: nat): (d: nat)
    requires attempt >= 1
    ensures attempt == 1 ==> d == 30
    ensures attempt == 2 ==> d == 120
    ensures attempt >= 3 ==> d == 300
  {
    if attempt == 1 then 30 else if attempt == 2 then 2 * 60 else 5 * 60
  }

  /** The pauses taken after the first `n` failed attempts, in order. */
  function Pauses(n: nat): (ps: seq<nat>)
    ensures |ps| == n
    ensures forall k :: 0 <= k < n ==> ps[k] == BackoffDelay(k + 1)
  {
    if n == 0 then [] else Pauses(n - 1) + [BackoffDelay(n)]
  }

  /** The schedule never shortens: each pause is at least the one before it, and none exceeds five minutes. */
  lemma PausesGrow(n: nat)
    ensures forall i, j :: 0 <= i <= j < n ==> Pauses(n)[i] <= Pauses(n)[j]
    ensures forall k :: 0 <= k < n ==> 30 <= Pauses(n)[k] <= 300
  {
  }

  /** The total time spent waiting before attempt `n + 1`. */
  function TotalWait(ps: seq<nat>): nat {
    if ps == [] then 0 else TotalWait(ps[..|ps| - 1]) + ps[|ps| - 1]
  }

  /**
   * Three attempts, the number the worker uses, wait 30 s and then 2 min; after
   * that each further attempt waits five more minutes.
   */
  lemma {:induction false} TotalWaitOf(n: nat)
    ensures n <= 2 ==> TotalWait(Pauses(n)) == [0, 30, 150][n]
    ensures n >= 2 ==> TotalWait(Pauses(n)) == 150 + 300 * (n - 2)
  {
    if n > 0 {
      TotalWaitOf(n - 1);
      assert Pauses(n)[..n - 1] == Pauses(n - 1);
    }
  }

  /**
   * `retry_with_backoff`. `task(k)` is what the task yields on its `k`-th call
   * (it may depend on earlier calls, as an `FnMut` closure can). Returns the
   * result handed back, how many times the task ran, and the pauses slept.
   */
  method RetryWithBackoff<T, E>(task: nat -> Result<T, E>, maxAttempts: uint32)
    returns (r: Result<T, E>, calls: nat, pauses: seq<nat>)
    requires maxAttempts >= 1
    ensures 1 <= calls <= maxAttempts
    ensures r == task(calls)
    ensures forall k :: 1 <= k < calls ==> task(k).Err?
    ensures r.Err? ==> calls == maxAttempts
    ensures pauses == Pauses(calls - 1)
  {
    var attempt: nat := 1;
    pauses := [];
    while true
      invariant 1 <= attempt <= maxAttempts
      invariant forall k :: 1 <= k < attempt ==> task(k).Err?
      invariant pauses == Pauses(attempt - 1)
      decreases maxAttempts - attempt
    {
      var outcome := task(attempt);
      match outcome {
        case Ok(_) =>
          return outcome, attempt, pauses;
        case Err(_) =>
          if attempt >= maxAttempts as nat {
            return outcome, attempt, pauses;
          }
          pauses := pauses + [BackoffDelay(attempt)];
          attempt := attempt + 1;
      }
    }
  }

  /** The index of the first success among calls 1..max, if there is one. */
  function FirstOk<T, E>(task: nat -> Result<T, E>, max: nat): (i: Option<nat>)
    ensures i.Some? ==> 1 <= i.value <= max && task(i.value).Ok?
    ensures i.Some? ==> forall k :: 1 <= k < i.value ==> task(k).Err?
    ensures i.None? ==> forall k :: 1 <= k <= max ==> task(k).Err?
  {
    if max == 0 then None
    else match FirstOk(task, max - 1)
      case Some(i) => Some(i)
      case None => if task(max).Ok? then Some(max) else None
  }

  /**
   * The retry loop succeeds exactly when some call within the budget succeeds,
   * and then it stops at the first one; otherwise it spends the whole budget.
   */
  method RetryAgreesWithFirstOk<T, E>(task: nat -> Result<T, E>, maxAttempts: uint32)
    returns (r: Result<T, E>, calls: nat)
    requires maxAttempts >= 1
    ensures r.Ok? <==> FirstOk(task, maxAttempts).Some?
    ensures r.Ok? ==> calls == FirstOk(task, maxAttempts).value
    ensures r.Err? ==> calls == maxAttempts && r == task(maxAttempts)
  {
    var pauses;
    r, calls, pauses := RetryWithBackoff(task, maxAttempts);
    var first := FirstOk(task, maxAttempts);
    if first.Some? {
      assert task(first.value).Ok? && r == task(calls);
    }
  }

  /** `test_retry_with_backoff_succeeds_on_second_attempt`: one failure, then success after a 30 s pause. */
  method SucceedsOnSecondAttempt() returns (r: Result<string, string>, calls: nat, pauses: seq<nat>)
    ensures r == Ok("Success") && calls == 2 && pauses == [30]
  {
    var task := (k: nat) => if k < 2 then Err("Transient error") else Ok("Success");
    r, calls, pauses := RetryWithBackoff(task, 3);
    assert task(1).Err? && task(2).Ok?;
    assert Pauses(1) == [30];
  }

  /** `test_retry_with_backoff_fails_after_max_attempts`: three calls, the last error, pauses of 30 s and 2 min. */
  method FailsAfterMaxAttempts() returns (r: Result<(), string>, calls: nat, pauses: seq<nat>)
    ensures r == Err("Persistent error") && calls == 3 && pauses == [30, 120]
  {
    var task := (k: nat) => Err("Persistent error");
    r, calls, pauses := RetryWithBackoff(task, 3);
    assert Pauses(2) == [30, 120];
  }

  // ---------------------------------------------------------------------
  // map_fields_for_submission
  // ---------------------------------------------------------------------

  /**
   * `map_fields_for_submission`: the form fields for one removal, or the first
   * problem in the order email, first name, last name.
   */
  method MapFieldsForSubmission(p: VP.UserProfile, listingUrl: string,
                                decrypt: VP.Sealed -> Result<string, string>)
    returns (r: Result<map<string, string>, string>)
    ensures p.email.None? ==> r == Err("Missing required field: email")
    ensures p.email.Some? && decrypt(p.email.value).Err? ==>
      r == Err("Failed to decrypt email: " + decrypt(p.email.value).error)
    ensures Opens(p.email, decrypt) && p.firstName.None? ==> r == Err("Missing required field: first_name")
    ensures Opens(p.email, decrypt) && p.firstName.Some? && decrypt(p.firstName.value).Err? ==>
      r == Err("Failed to decrypt first_name: " + decrypt(p.firstName.value).error)
    ensures Opens(p.email, decrypt) && Opens(p.firstName, decrypt) && p.lastName.None? ==>
      r == Err("Missing required field: last_name")
    ensures (Opens(p.email, decrypt) && Opens(p.firstName, decrypt) && p.lastName.Some?
             && decrypt(p.lastName.value).Err?) ==>
      r == Err("Failed to decrypt last_name: " + decrypt(p.lastName.value).error)
    ensures r.Ok? <==> Opens(p.email, decrypt) && Opens(p.firstName, decrypt) && Opens(p.lastName, decrypt)
    ensures r.Ok? ==> r.value.Keys == {"listing_url", "email", "first_name", "last_name"}
    ensures r.Ok? ==> r.value["listing_url"] == listingUrl && r.value["email"] == decrypt(p.email.value).value
    ensures r.Ok? ==> r.value["first_name"] == decrypt(p.firstName.value).value
    ensures r.Ok? ==> r.value["last_name"] == decrypt(p.lastName.value).value
  {
    var fields: map<string, string> := map[];
    fields := fields["listing_url" := listingUrl];

    if p.email.None? { return Err("Missing required field: email"); }
    var email := decrypt(p.email.value);
    if email.Err? { return Err("Failed to decrypt email: " + email.error); }
    fields := fields["email" := email.value];

    if p.firstName.None? { return Err("Missing required field: first_name"); }
    var firstName := decrypt(p.firstName.value);
    if firstName.Err? { return Err("Failed to decrypt first_name: " + firstName.error); }
    fields := fields["first_name" := firstName.value];

    if p.lastName.None? { return Err("Missing required field: last_name"); }
    var lastName := decrypt(p.lastName.value);
    if lastName.Err? { return Err("Failed to decrypt last_name: " + lastName.error); }
    fields := fields["last_name" := lastName.value];

    return Ok(fields);
  }

  /** The field is stored and decrypts. */
  predicate Opens(field: Option<VP.Sealed>, decrypt: VP.Sealed -> Result<string, string>) {
    field.Some? && decrypt(field.value).Ok?
  }

  // ---------------------------------------------------------------------
  // The status written after a submission
  // ---------------------------------------------------------------------

  /** The removal-attempt statuses the worker writes. */
  datatype RemovalStatus = Pending | Submitted | Failed

  /** One `update_status` call: the status, its two timestamp slots and the error message. */
  datatype StatusUpdate = StatusUpdate(status: RemovalStatus, submittedAt: Option<int>,
                                       completedAt: Option<int>, errorMessage: Option<string>)

  /** The update `submit_removal_task` makes for an outcome, at time `now`. */
  function UpdateFor(o: RR.RemovalOutcome, now: int): (u: StatusUpdate)
    ensures u.completedAt.None?
    ensures u.submittedAt.Some? <==> u.status == Submitted
    ensures u.submittedAt.Some? ==> u.submittedAt.value == now
    ensures u.errorMessage.None? <==> u.status == Submitted
  {
    match o
    case Submitted => StatusUpdate(Submitted, Some(now), None, None)
    case RequiresEmailVerification(_, _) => StatusUpdate(Submitted, Some(now), None, None)
    case RequiresCaptcha(url) => StatusUpdate(Pending, None, None, Some("CAPTCHA_REQUIRED:" + url))
    case Failed(reason, _) => StatusUpdate(Failed, None, None, Some(reason))
    case RequiresAccountCreation =>
      StatusUpdate(Failed, None, None, Some("Account creation required (not supported)"))
  }

  /**
   * The status written, against the outcome's own classification: a success or
   * an e-mail verification counts as submitted, a CAPTCHA stays pending with
   * its URL behind the queue marker, and a failure or a required account is
   * recorded as failed.
   */
  lemma StatusByClass(o: RR.RemovalOutcome, now: int)
    ensures UpdateFor(o, now).status == Submitted <==> RR.IsSuccess(o) || o.RequiresEmailVerification?
    ensures UpdateFor(o, now).status == Pending <==> o.RequiresCaptcha?
    ensures UpdateFor(o, now).status == Failed <==> RR.IsFailure(o) || o.RequiresAccountCreation?
    ensures o.RequiresCaptcha? ==> UpdateFor(o, now).errorMessage == Some("CAPTCHA_REQUIRED:" + o.captchaUrl)
    ensures RR.IsFailure(o) ==> UpdateFor(o, now).errorMessage == Some(o.reason)
    ensures o.RequiresAccountCreation? ==>
      UpdateFor(o, now).errorMessage == Some("Account creation required (not supported)")
  {
  }

  /** A pending row's message always starts with the CAPTCHA marker, so the CAPTCHA queue can find it. */
  lemma PendingMeansCaptcha(o: RR.RemovalOutcome, now: int)
    requires UpdateFor(o, now).status == Pending
    ensures UpdateFor(o, now).errorMessage.Some?
    ensures var m := UpdateFor(o, now).errorMessage.value;
      |m| >= 17 && m[..17] == "CAPTCHA_REQUIRED:" && m[17..] == o.captchaUrl
  {
  }
}
