/**
 * The session check every admin page runs first, and the highlighting of the
 * navigation link of the current page.
 *
 * The check reads the token and the login time from storage, compares the
 * time with the clock (a parameter here) and, when the token is not a server
 * token or the session is older than eight hours, clears storage and sends
 * the user to the login page.
 */
module SessionGuard {
  import opened Wrappers
  import opened Text
  import LoginPage

  type Storage = map<string, string>

  /** Eight hours, in milliseconds. */
  const MaxSession: int := 8 * 60 * 60 * 1000

  function Get(st: Storage, key: string): Option<string> {
    if key in st then Some(st[key]) else None
  }

  // ---------------------------------------------------------------------------
  // Expiry
  // ---------------------------------------------------------------------------

  /**
   * `now - loginTime` in milliseconds: a missing login time counts as 0 and
   * text that is not a number gives `NaN` (`None`).
   */
  function Elapsed(now: int, loginTime: Option<string>): Option<int> {
    match loginTime
    case None => Some(now)
    case Some(s) =>
      match ParseInt(s)
      case None => None
      case Some(t) => Some(now - t)
  }

  /** More than eight hours since the login; a comparison with `NaN` is false. */
  predicate IsExpired(now: int, loginTime: Option<string>) {
    var e := Elapsed(now, loginTime);
    e.Some? && e.value > MaxSession
  }

  /** A session stamped at `t` is live up to and including eight hours later, and expired one millisecond after. */
  lemma {:induction false} ExpiryBoundary(t: int, now: int)
    ensures IsExpired(now, Some(DecimalString(t))) <==> now > t + MaxSession
  {
    ParseIntDecimalString(t);
  }

  // ---------------------------------------------------------------------------
  // Token shape
  // ---------------------------------------------------------------------------

  /** A missing or empty token, the login page's placeholder, or text without a `.` (not a signed token). */
  predicate IsTokenInvalid(token: Option<string>) {
    || token.None?
    || token.value == ""
    || token.value == LoginPage.Placeholder
    || '.' !in token.value
  }

  /** Stored text passes the token check exactly when it holds a `.`: neither the placeholder nor the empty text does. */
  lemma TokenShape(t: string)
    ensures !IsTokenInvalid(Some(t)) <==> '.' in t
  {
    assert LoginPage.Placeholder[0] == 'a';
  }

  // ---------------------------------------------------------------------------
  // The check
  // ---------------------------------------------------------------------------

  predicate MustLeave(st: Storage, now: int) {
    IsTokenInvalid(Get(st, LoginPage.TokenKey)) || IsExpired(now, Get(st, LoginPage.TimeKey))
  }

  /** Storage after the check, and whether the page is left for the login page. */
  function Guard(st: Storage, now: int): (r: (Storage, bool))
    ensures r.1 <==> IsTokenInvalid(Get(st, LoginPage.TokenKey)) || IsExpired(now, Get(st, LoginPage.TimeKey))
    ensures r.1 ==> r.0 == map[]
    ensures !r.1 ==> r.0 == st
  {
    if MustLeave(st, now) then (map[], true) else (st, false)
  }

  /** The check is stable: a page it lets through is let through again, and a cleared storage is refused again. */
  lemma GuardIdempotent(st: Storage, now: int)
    ensures Guard(Guard(st, now).0, now).1 == Guard(st, now).1
    ensures Guard(Guard(st, now).0, now).0 == Guard(st, now).0
  {
  }

  /** As written, the login page stores a token the check always refuses: every login is sent back to the login page. */
  lemma LoginAsWrittenIsRefused(st: Storage, a: LoginPage.LoginAnswer, now: int)
    requires a.ok
    ensures Guard(LoginPage.LoginAsWritten(st, a).0, now) == (map[], true)
  {
  }

  /**
   * Storing the server's token (a signed token always holds a `.`) and the
   * login time, the session is accepted for the next eight hours, to the
   * millisecond, and refused after.
   */
  lemma LoginKeepsSession(st: Storage, a: LoginPage.LoginAnswer, loginAt: int, now: int)
    requires a.ok && a.token.Some? && '.' in a.token.value
    ensures var stored := LoginPage.Login(st, a, loginAt).0;
      Guard(stored, now).1 <==> now > loginAt + MaxSession
  {
    var stored := LoginPage.Login(st, a, loginAt).0;
    assert Get(stored, LoginPage.TokenKey) == a.token;
    assert a.token.value != LoginPage.Placeholder by {
      assert '.' !in LoginPage.Placeholder;
    }
    assert Get(stored, LoginPage.TimeKey) == Some(DecimalString(loginAt));
    ExpiryBoundary(loginAt, now);
  }

  // ---------------------------------------------------------------------------
  // The current page
  // ---------------------------------------------------------------------------

  const HomePage: string := "dashboard.html"

  /** The file name of the current page: the path's last segment, the dashboard for a path ending in `/`. */
  function PageName(path: string): (r: string)
    ensures r != "" && '/' !in r
    ensures LastSegment(path, '/') != "" ==> r == LastSegment(path, '/')
    ensures LastSegment(path, '/') == "" ==> r == HomePage
  {
    var seg := LastSegment(path, '/');
    if seg == "" then HomePageIsAName(); HomePage else seg
  }

  lemma HomePageIsAName()
    ensures HomePage != "" && '/' !in HomePage
  {
  }

  /** The navigation link that is highlighted: the one whose target is the current page. */
  predicate IsActive(path: string, href: string) {
    PageName(path) == href
  }

  /**
   * The link highlighted on a page is the page's file name, the text after the
   * last `/` of the path; a path ending in `/` highlights the dashboard.
   */
  lemma ActiveLink(dir: string, name: string, path: string)
    ensures name != "" && '/' !in name ==> IsActive(dir + "/" + name, name)
    ensures path != [] && path[|path| - 1] == '/' ==> IsActive(path, HomePage)
  {
    if name != "" && '/' !in name {
      LastSegmentAfter(dir, '/', name);
    }
  }
}
