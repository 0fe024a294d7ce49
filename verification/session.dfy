/**
 * The client's session state, `stashedCsrfToken` and `stashedUsername`, held
 * as an explicit value, and the operations that read or change it.
 */
module Sessions {
  import opened Optional
  import opened Text
  import opened Site
  import opened Http

  /** The CSRF token the site last handed out, and the user name waiting for a two-factor code. */
  datatype Session = Session(csrfToken: Option<string>, pendingUsername: Option<string>)

  const Fresh: Session := Session(None, None)

  /**
   * `getCSRFToken(from:)`: the `content` of the page's `csrftoken` meta tag,
   * when it is not empty. `meta` is that content, or none when the HTML
   * library throws.
   */
  function TokenFromMeta(meta: Option<string>): (r: Option<string>)
    ensures r.Some? <==> meta.Some? && meta.value != ""
    ensures r.Some? ==> r.value == meta.value
  {
    match meta
    case None => None
    case Some(content) => if content == "" then None else Some(content)
  }

  /**
   * `stashCSRFToken(from:skipUsername:)`: a loaded page's token replaces the
   * stashed one; a page without one leaves the stash as it was.
   */
  function Stash(s: Session, meta: Option<string>): (r: Session)
    ensures TokenFromMeta(meta).Some? ==> r.csrfToken == TokenFromMeta(meta)
    ensures TokenFromMeta(meta).None? ==> r == s
    ensures r.pendingUsername == s.pendingUsername
  {
    match TokenFromMeta(meta)
    case None => s
    case Some(t) => s.(csrfToken := Some(t))
  }

  /** Loading the same page twice stashes no more than loading it once. */
  lemma StashIdempotent(s: Session, meta: Option<string>)
    ensures Stash(Stash(s, meta), meta) == Stash(s, meta)
  {
  }

  /** Of two pages loaded one after the other, the later one's token wins. */
  lemma StashLastWins(s: Session, first: Option<string>, second: Option<string>)
    requires TokenFromMeta(second).Some?
    ensures Stash(Stash(s, first), second) == Stash(s, second)
  {
  }

  /** Once a token is stashed, loading pages never loses it. */
  lemma StashNeverForgets(s: Session, metas: seq<Option<string>>)
    requires s.csrfToken.Some?
    ensures StashAll(s, metas).csrfToken.Some?
    decreases |metas|
  {
    if |metas| > 0 {
      StashNeverForgets(Stash(s, metas[0]), metas[1..]);
    }
  }

  /** The pages `metas` loaded in order. */
  function StashAll(s: Session, metas: seq<Option<string>>): Session
    decreases |metas|
  {
    if |metas| == 0 then s else StashAll(Stash(s, metas[0]), metas[1..])
  }

  /** After a run of page loads the stashed token is the last non-empty one among them, if any. */
  lemma {:induction false} StashAllKeepsLastToken(s: Session, metas: seq<Option<string>>, i: nat)
    requires i < |metas| && TokenFromMeta(metas[i]).Some?
    requires forall j | i < j < |metas| :: TokenFromMeta(metas[j]).None?
    ensures StashAll(s, metas).csrfToken == TokenFromMeta(metas[i])
    decreases |metas|
  {
    if i == 0 {
      StashAllKeepsSession(Stash(s, metas[0]), metas[1..]);
    } else {
      StashAllKeepsLastToken(Stash(s, metas[0]), metas[1..], i - 1);
    }
  }

  /** Pages without a token change nothing. */
  lemma {:induction false} StashAllKeepsSession(s: Session, metas: seq<Option<string>>)
    requires forall j | 0 <= j < |metas| :: TokenFromMeta(metas[j]).None?
    ensures StashAll(s, metas) == s
    decreases |metas|
  {
    if |metas| > 0 {
      StashAllKeepsSession(Stash(s, metas[0]), metas[1..]);
    }
  }

  // ---------------------------------------------------------------------------
  // Logging in and out
  // ---------------------------------------------------------------------------

  const UnableToPost: string := "Unable to post request"
  const AnErrorOccurred: string := "An error occurred"
  const TwoFactorAnswer: string := "2fa"
  const LogoutUnableToPost: string := "[TildesAPI] -logout- Unable to post request"

  /**
   * The message a failed login reports: a short body as it is, else the
   * status code, else a generic notice.
   */
  function ErrorMessage(status: Option<int>, html: string): (r: string)
    ensures |html| < 100 ==> r == html
    ensures |html| >= 100 && status.Some? ==> r == DecimalString(status.value)
    ensures |html| >= 100 && status.None? ==> r == AnErrorOccurred
  {
    if |html| < 100 then html
    else if status.Some? then DecimalString(status.value)
    else AnErrorOccurred
  }

  /** The login page as fetched by `getCSRFToken(for:)`: `LoginPageFailed` when the fetch throws. */
  datatype LoginPage = LoginPageFailed | LoginPage(csrfMeta: Option<string>)

  function LoginToken(page: LoginPage): (r: Option<string>)
    ensures page.LoginPageFailed? ==> r.None?
    ensures page.LoginPage? ==> r == TokenFromMeta(page.csrfMeta)
  {
    match page
    case LoginPageFailed => None
    case LoginPage(meta) => TokenFromMeta(meta)
  }

  function LoginRequest(username: string, password: string, token: string): (r: Request)
    ensures r.verb == Post && r.url == PageUrl(["login"]) && r.referrer == r.url
    ensures r.csrfToken == Some(token) && "csrf_token" in r.form && r.form["csrf_token"] == token
    ensures r.form.Keys == {"username", "password", "csrf_token"}
  {
    Request(Post, PageUrl(["login"]), PageUrl(["login"]), Some(token), true, None,
            map["username" := username, "password" := password, "csrf_token" := token])
  }

  /**
   * `logIntoAccount(username:password:)`: `None` on success, `"2fa"` when the
   * site asks for a second factor (the token and user name are then kept for
   * it), and an error message otherwise. `asksForTwoFactor` says whether a
   * page holds the two-factor form.
   */
  function LogIntoAccount(s: Session, username: string, password: string, page: LoginPage,
                          send: Request -> Response, asksForTwoFactor: string -> bool): (r: (Session, Option<string>))
    ensures LoginToken(page).None? ==> r == (s, Some(UnableToPost))
    ensures LoginToken(page).Some? ==>
      var resp := send(LoginRequest(username, password, LoginToken(page).value));
      && (resp.Failed? ==> r == (s, Some(UnableToPost)))
      && (resp.Received? && asksForTwoFactor(resp.body) ==>
            r == (Session(LoginToken(page), Some(username)), Some(TwoFactorAnswer)))
      && (resp.Received? && !asksForTwoFactor(resp.body) && resp.status != Some(200) ==>
            r == (s, Some(ErrorMessage(resp.status, resp.body))))
      && (r.1.None? <==> resp.Received? && !asksForTwoFactor(resp.body) && resp.status == Some(200))
    ensures r.0 == s || r.1 == Some(TwoFactorAnswer)
  {
    match LoginToken(page)
    case None => (s, Some(UnableToPost))
    case Some(token) =>
      match send(LoginRequest(username, password, token))
      case Failed => (s, Some(UnableToPost))
      case Received(status, _, _, body) =>
        if asksForTwoFactor(body) then (s.(csrfToken := Some(token), pendingUsername := Some(username)), Some(TwoFactorAnswer))
        else if status != Some(200) then (s, Some(ErrorMessage(status, body)))
        else (s, None)
  }

  function TwoFactorRequest(s: Session, code: string): (r: Option<Request>)
    ensures r.None? <==> s.csrfToken.None?
    ensures r.Some? ==> r.value.csrfToken == s.csrfToken && "csrf_token" in r.value.form && r.value.form["csrf_token"] == s.csrfToken.value
    ensures r.Some? ==> r.value.verb == Post && r.value.url == PageUrl(["login_two_factor"])
    ensures r.Some? ==> r.value.referrer == PageUrl(["login"]) && "code" in r.value.form && r.value.form["code"] == code
  {
    match s.csrfToken
    case None => None
    case Some(token) =>
      Some(Request(Post, PageUrl(["login_two_factor"]), BaseUrl + "/login", Some(token), false, None,
                   map["code" := code, "ic-request" := "false", "csrf_token" := token]))
  }

  /** How `twoFactorLogin(_:)` ends: it throws, or returns an optional error message. */
  datatype TwoFactorOutcome = Threw | Returned(message: Option<string>)

  /**
   * `twoFactorLogin(_:)`: throws without a stashed token or when the transfer
   * fails; otherwise succeeds on HTTP 200, which clears the waiting user name.
   */
  function TwoFactorLogin(s: Session, code: string, send: Request -> Response): (r: (Session, TwoFactorOutcome))
    ensures s.csrfToken.None? ==> r == (s, Threw)
    ensures s.csrfToken.Some? ==>
      var resp := send(TwoFactorRequest(s, code).value);
      && (resp.Failed? ==> r == (s, Threw))
      && (resp.Received? && resp.status != Some(200) ==> r == (s, Returned(Some(ErrorMessage(resp.status, resp.body)))))
    ensures r.0.csrfToken == s.csrfToken
    ensures r.1 == Returned(None) <==> s.csrfToken.Some? && IsOk(send(TwoFactorRequest(s, code).value))
    ensures r.1 == Returned(None) ==> r.0.pendingUsername.None?
    ensures r.1 != Returned(None) ==> r.0 == s
  {
    match TwoFactorRequest(s, code)
    case None => (s, Threw)
    case Some(req) =>
      match send(req)
      case Failed => (s, Threw)
      case Received(status, _, _, body) =>
        if status != Some(200) then (s, Returned(Some(ErrorMessage(status, body))))
        else (s.(pendingUsername := None), Returned(None))
  }

  /**
   * A login answered with the two-factor form leaves the session ready for
   * the code: the next request carries the token fetched with the login page.
   */
  lemma TwoFactorFollowsLogin(s: Session, username: string, password: string, page: LoginPage,
                              send: Request -> Response, asksForTwoFactor: string -> bool, code: string)
    requires LoginToken(page).Some?
    requires var resp := send(LoginRequest(username, password, LoginToken(page).value));
             resp.Received? && asksForTwoFactor(resp.body)
    ensures var after := LogIntoAccount(s, username, password, page, send, asksForTwoFactor).0;
            && after.pendingUsername == Some(username)
            && TwoFactorRequest(after, code).Some?
            && TwoFactorRequest(after, code).value.form["csrf_token"] == LoginToken(page).value
  {
  }

  function LogoutRequest(s: Session): (r: Option<Request>)
    ensures r.None? <==> s.csrfToken.None?
    ensures r.Some? ==> r.value.verb == Post && r.value.url == PageUrl(["logout"]) && r.value.referrer == r.value.url
    ensures r.Some? ==> r.value.csrfToken == s.csrfToken && r.value.form == map["csrf_token" := s.csrfToken.value]
  {
    match s.csrfToken
    case None => None
    case Some(token) => Some(Request(Post, PageUrl(["logout"]), PageUrl(["logout"]), Some(token), false, None,
                                     map["csrf_token" := token]))
  }

  /**
   * `logout()`: success (`None`) on HTTP 200, and on 403 too, since the
   * site then says the user is not logged in anyway; the page's body on any
   * other status; a fixed message without a token or when the transfer fails.
   */
  function Logout(s: Session, send: Request -> Response): (r: Option<string>)
    ensures s.csrfToken.None? ==> r == Some(LogoutUnableToPost)
    ensures s.csrfToken.Some? ==>
      var resp := send(LogoutRequest(s).value);
      && (r.None? <==> resp.Received? && (resp.status == Some(200) || resp.status == Some(403)))
      && (resp.Failed? ==> r == Some(LogoutUnableToPost))
      && (resp.Received? && r.Some? ==> r == Some(resp.body))
  {
    match LogoutRequest(s)
    case None => Some(LogoutUnableToPost)
    case Some(req) =>
      match send(req)
      case Failed => Some(LogoutUnableToPost)
      case Received(status, _, _, body) =>
        if status != Some(200) && status != Some(403) then Some(body) else None
  }
}
