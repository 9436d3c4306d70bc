/**
 * The app-level session: whether the user is authenticated, the session
 * token, and the count of failed attempts.
 */
module Auth {
  import opened Wrappers
  import opened Ints

  datatype AuthError =
    | InvalidPin
    | BiometricFailed
    | BiometricsUnavailable
    | RateLimited(lockoutSeconds: nat)
    | SessionExpired
    | NotAuthenticated

  /** The observable state of a session. */
  datatype Session = Session(authenticated: bool, sessionToken: Option<seq<uint8>>, failedAttempts: uint32)

  /** The session `lock` leaves behind: signed out, token dropped, attempts kept. */
  function Locked(s: Session): (r: Session)
    ensures !r.authenticated && r.sessionToken.None? && r.failedAttempts == s.failedAttempts
  {
    s.(authenticated := false, sessionToken := None)
  }

  /** Locking twice is locking once. */
  lemma LockedIdempotent(s: Session)
    ensures Locked(Locked(s)) == Locked(s)
  {
  }

  /** `AuthState`. */
  class AuthState {
    var authenticated: bool
    var sessionToken: Option<seq<uint8>>
    var failedAttempts: uint32

    function State(): Session
      reads this
    {
      Session(authenticated, sessionToken, failedAttempts)
    }

    /** `AuthState::new`: not authenticated, no token, no failed attempts. */
    constructor ()
      ensures !IsAuthenticated() && FailedAttempts() == 0 && sessionToken.None?
    {
      authenticated := false;
      sessionToken := None;
      failedAttempts := 0;
    }

    /** `is_authenticated`. */
    function IsAuthenticated(): bool
      reads this
    {
      authenticated
    }

    /** `failed_attempts`. */
    function FailedAttempts(): uint32
      reads this
    {
      failedAttempts
    }

    /** `lock`: the session becomes `Locked` of what it was. */
    method Lock()
      modifies this
      ensures State() == Locked(old(State()))
      ensures !IsAuthenticated() && sessionToken.None? && FailedAttempts() == old(FailedAttempts())
    {
      authenticated := false;
      sessionToken := None;
    }
  }

  /** A new session, locked once or twice, is signed out with no failed attempts. */
  method LockNewSession() returns (authenticated: bool, attempts: uint32)
    ensures !authenticated && attempts == 0
  {
    var a := new AuthState();
    a.Lock();
    var once := a.State();
    a.Lock();
    assert a.State() == once;
    authenticated, attempts := a.IsAuthenticated(), a.FailedAttempts();
  }
}
