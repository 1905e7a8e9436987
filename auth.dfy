/**
 * The site-wide password gate: a fixed password, and a login that is kept
 * in session storage with its timestamp and lapses thirty minutes after the
 * login. Session storage is the field `stored` (the `site_auth` entry's
 * timestamp, `None` when there is no entry); the clock is a parameter.
 */
module Auth {
  import opened Wrappers

  /** The one password the site accepts. */
  const PASSWORD: string := "gc5ctcm"

  /** Thirty minutes, in milliseconds. */
  const PASSWORD_EXPIRY: int := 30 * 60 * 1000

  /** The check the provider makes of a stored login: missing, or at least thirty minutes old. */
  predicate Expired(stored: Option<int>, now: int)
    ensures stored.Some? && now <= stored.value ==> !Expired(stored, now)
    ensures stored.Some? && Expired(stored, now) ==> now > stored.value
  {
    stored.None? || now - stored.value >= PASSWORD_EXPIRY
  }

  /** The provider's state: the `isAuthenticated` flag and the `site_auth` entry. */
  class AuthProvider {
    var isAuthenticated: bool
    var stored: Option<int>

    /**
     * Only a stored login makes the session authenticated, so a check of an
     * authenticated session always has a login time to measure from.
     */
    predicate Valid()
      reads this
    {
      isAuthenticated ==> stored.Some?
    }

    /**
     * The initial state: authenticated exactly when a login is stored and is
     * less than thirty minutes old; an expired entry is removed.
     */
    constructor (stored: Option<int>, now: int)
      ensures Valid()
      ensures isAuthenticated <==> !Expired(stored, now)
      ensures stored.Some? && !Expired(stored, now) ==> this.stored == stored
      ensures stored.Some? && Expired(stored, now) ==> this.stored.None?
      ensures stored.None? ==> this.stored.None?
    {
      if stored.Some? {
        if now - stored.value < PASSWORD_EXPIRY {
          isAuthenticated := true;
          this.stored := stored;
        } else {
          isAuthenticated := false;
          this.stored := None;
        }
      } else {
        isAuthenticated := false;
        this.stored := None;
      }
    }

    /**
     * `login(password)`: the right password authenticates the session and
     * stores the login time; any other password is refused and changes
     * nothing.
     */
    method Login(password: string, now: int) returns (ok: bool)
      modifies this
      ensures ok <==> password == PASSWORD
      ensures ok ==> isAuthenticated && stored == Some(now)
      ensures !ok ==> isAuthenticated == old(isAuthenticated) && stored == old(stored)
      ensures old(Valid()) ==> Valid()
    {
      if password == PASSWORD {
        isAuthenticated := true;
        stored := Some(now);
        ok := true;
      } else {
        ok := false;
      }
    }

    /** `logout()`: the session is unauthenticated and the stored login removed. */
    method Logout()
      modifies this
      ensures !isAuthenticated && stored.None?
      ensures Valid()
    {
      isAuthenticated := false;
      stored := None;
    }

    /**
     * One run of the periodic `checkAuth`, which is only scheduled while the
     * session is authenticated: the session ends when the stored login is
     * missing or at least thirty minutes old, and is left as it is
     * otherwise. Checking never renews the login.
     */
    method CheckAuth(now: int)
      modifies this
      ensures !old(isAuthenticated) ==> isAuthenticated == old(isAuthenticated) && stored == old(stored)
      ensures old(isAuthenticated) && Expired(old(stored), now) ==> !isAuthenticated && stored.None?
      ensures old(isAuthenticated) && !Expired(old(stored), now) ==> isAuthenticated && stored == old(stored)
      ensures old(Valid()) ==> Valid()
      ensures old(Valid()) && old(isAuthenticated) ==> (isAuthenticated <==> now - old(stored).value < PASSWORD_EXPIRY)
    {
      if !isAuthenticated {
        return;
      }
      if stored.Some? {
        if now - stored.value >= PASSWORD_EXPIRY {
          Logout();
        }
      } else {
        Logout();
      }
    }
  }

  /**
   * The login made at `loginTime` lapses at a fixed time: it is live at
   * every instant before `loginTime + PASSWORD_EXPIRY` and expired at every
   * instant from then on, however often it was checked in between.
   * `PASSWORD_EXPIRY` is thirty minutes, 1,800,000 ms.
   */
  lemma ExpiryIsFixed(loginTime: int, now: int)
    ensures !Expired(Some(loginTime), now) <==> now < loginTime + PASSWORD_EXPIRY
  {
  }

  /**
   * A login followed by a check at the same clock reading keeps the session,
   * and a check thirty minutes later or more ends it.
   */
  method LoginThenCheck(password: string, loginTime: int, checkTime: int) returns (authenticated: bool)
    ensures authenticated <==> password == PASSWORD && checkTime < loginTime + PASSWORD_EXPIRY
  {
    var p := new AuthProvider(None, loginTime);
    var ok := p.Login(password, loginTime);
    p.CheckAuth(checkTime);
    authenticated := p.isAuthenticated;
  }
}
