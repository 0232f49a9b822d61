/** The login page (login.js): the two field checks, the remember-me key, the redirect that
    sends a visitor who is not logged in to the login page (and, as written, sends the
    login page to itself again on every load), and logout. The email check is
    the sign-up page's. Storage is a map from key to text; the page's path is a parameter. */
module Login {
  import opened Common
  import opened Signup

  const RememberedEmailKey := "rememberedEmail"

  /** Login only asks for six UTF-16 code units (login.js:50). */
  predicate ValidLoginPassword(password: string) {
    Utf16Length(password) >= 6
  }

  /** Which error messages are shown. */
  datatype LoginErrors = LoginErrors(email: bool, password: bool)

  /** The remember-me update of a valid submit (login.js:56-62): store the email when the
      box is checked, forget any stored one otherwise. */
  function Remembered(storage: map<string, string>, email: string, rememberMe: bool): (s: map<string, string>)
    ensures rememberMe ==> RememberedEmailKey in s && s[RememberedEmailKey] == email
    ensures !rememberMe ==> RememberedEmailKey !in s
    ensures forall k :: k != RememberedEmailKey ==> (k in s <==> k in storage) && (k in s ==> s[k] == storage[k])
  {
    if rememberMe then storage[RememberedEmailKey := email] else storage - {RememberedEmailKey}
  }

  /** `validateForm` (login.js:33-69): both checks run and show their own error; only when
      both pass is the remember-me key updated and the user authenticated. */
  method ValidateForm(email: string, password: string, rememberMe: bool, storage: map<string, string>)
    returns (errors: LoginErrors, newStorage: map<string, string>, authenticate: bool)
    ensures errors.email <==> !ValidEmail(email)
    ensures errors.password <==> !ValidLoginPassword(password)
    ensures authenticate <==> ValidEmail(email) && ValidLoginPassword(password)
    ensures authenticate ==> newStorage == Remembered(storage, email, rememberMe)
    ensures !authenticate ==> newStorage == storage
  {
    var isValid := true;
    errors := LoginErrors(false, false);
    if !ValidEmail(email) {
      errors := errors.(email := true);
      isValid := false;
    }
    if Utf16Length(password) < 6 {
      errors := errors.(password := true);
      isValid := false;
    }
    newStorage := storage;
    if isValid {
      if rememberMe {
        newStorage := newStorage[RememberedEmailKey := email];
      } else {
        newStorage := newStorage - {RememberedEmailKey};
      }
    }
    authenticate := isValid;
  }

  /** `authenticateUser` (login.js:71-79): any attempt logs the user in under the email. */
  function Authenticated(storage: map<string, string>, email: string): (s: map<string, string>)
    ensures LoggedIn(s) && UserEmailKey in s && s[UserEmailKey] == email
    ensures forall k :: k != IsLoggedInKey && k != UserEmailKey ==> (k in s <==> k in storage) && (k in s ==> s[k] == storage[k])
  {
    storage[IsLoggedInKey := "true"][UserEmailKey := email]
  }

  /** `loadRememberedEmail` (login.js:82-88): the email field and the remember-me box after
      loading; a stored non-empty email fills the field and checks the box, otherwise both
      stay as they were. */
  function LoadRememberedEmail(storage: map<string, string>, emailField: string, checked: bool): (r: (string, bool))
    ensures RememberedEmailKey in storage && storage[RememberedEmailKey] != "" ==> r == (storage[RememberedEmailKey], true)
    ensures !(RememberedEmailKey in storage && storage[RememberedEmailKey] != "") ==> r == (emailField, checked)
  {
    if RememberedEmailKey in storage && storage[RememberedEmailKey] != "" then (storage[RememberedEmailKey], true)
    else (emailField, checked)
  }

  /** A valid email submitted with the box checked comes back, box checked, on the next
      visit; submitted with the box clear, the next visit leaves the field and box as the
      page has them. */
  lemma RememberRoundTrip(storage: map<string, string>, email: string, rememberMe: bool, emailField: string, checked: bool)
    requires ValidEmail(email)
    ensures rememberMe ==> LoadRememberedEmail(Remembered(storage, email, rememberMe), emailField, checked) == (email, true)
    ensures !rememberMe ==> LoadRememberedEmail(Remembered(storage, email, rememberMe), emailField, checked) == (emailField, checked)
  {
  }

  /** `window.location.pathname.split('/').pop()`: the text after the last '/'. */
  function CurrentPage(pathname: string): (r: string)
    ensures |r| <= |pathname| && r == pathname[|pathname| - |r|..]
    ensures forall k :: 0 <= k < |r| ==> r[k] != '/'
    ensures |r| < |pathname| ==> pathname[|pathname| - |r| - 1] == '/'
  {
    if pathname == [] || pathname[|pathname| - 1] == '/' then []
    else CurrentPage(pathname[..|pathname| - 1]) + [pathname[|pathname| - 1]]
  }

  /** The page of a path is the name after its last slash. */
  lemma {:induction false} CurrentPageAfterSlash(dir: string, page: string)
    requires forall k :: 0 <= k < |page| ==> page[k] != '/'
    ensures CurrentPage(dir + "/" + page) == page
  {
    var path := dir + "/" + page;
    if page != [] {
      var front := page[..|page| - 1];
      assert path[..|path| - 1] == dir + "/" + front;
      CurrentPageAfterSlash(dir, front);
      assert front + [page[|page| - 1]] == page;
    }
  }

  /** `checkLoginStatus` (login.js:91-98): a visitor who is not logged in is sent to the
      login page, except from the sign-up page. */
  function LoginRedirect(storage: map<string, string>, pathname: string): (r: Option<string>)
    ensures r.Some? <==> !LoggedIn(storage) && CurrentPage(pathname) != "signup.html"
    ensures r.Some? ==> r.value == "login.html"
  {
    var isLoggedIn := IsLoggedInKey in storage && storage[IsLoggedInKey] == "true";
    var currentPage := CurrentPage(pathname);
    if !isLoggedIn && currentPage != "signup.html" then Some("login.html") else None
  }

  /** As written, the redirect also fires on the login page itself: a visitor who is not
      logged in is sent from login.html to login.html, so the page reloads without end. */
  lemma LoginPageRedirectsToItself(storage: map<string, string>)
    requires !LoggedIn(storage)
    ensures LoginRedirect(storage, "/login.html") == Some(CurrentPage("/login.html"))
  {
    CurrentPageAfterSlash("", "login.html");
    assert "" + "/" + "login.html" == "/login.html";
  }

  /** The evidently intended redirect: a visitor who is not logged in is sent to the login
      page unless already on it or on the sign-up page. It never sends a page to itself. */
  function IntendedLoginRedirect(storage: map<string, string>, pathname: string): (r: Option<string>)
    ensures r.Some? <==> !LoggedIn(storage) && CurrentPage(pathname) !in {"signup.html", "login.html"}
    ensures r.Some? ==> r.value == "login.html" && r.value != CurrentPage(pathname)
  {
    var currentPage := CurrentPage(pathname);
    if !LoggedIn(storage) && currentPage != "signup.html" && currentPage != "login.html" then Some("login.html")
    else None
  }

  /** Away from the login page the intended redirect is the one written, so what
      `SessionRedirects` states holds for it on every other page. */
  lemma IntendedRedirectAgrees(storage: map<string, string>, pathname: string)
    requires CurrentPage(pathname) != "login.html"
    ensures IntendedLoginRedirect(storage, pathname) == LoginRedirect(storage, pathname)
  {
  }

  /** `logout` (login.js:101-105): only the login flag and the user's email are removed;
      the remembered email, the user's name and the journal's data stay. */
  function Logout(storage: map<string, string>): (s: map<string, string>)
    ensures IsLoggedInKey !in s && UserEmailKey !in s
    ensures forall k :: k != IsLoggedInKey && k != UserEmailKey ==> (k in s <==> k in storage) && (k in s ==> s[k] == storage[k])
  {
    storage - {IsLoggedInKey} - {UserEmailKey}
  }

  /** Logging in, or registering, keeps the visitor off the login redirect and sends the
      sign-up page on to the main page; logging out brings the redirect back everywhere but
      the sign-up page, and keeps the remembered email. */
  lemma SessionRedirects(storage: map<string, string>, email: string, user: UserData, pathname: string)
    ensures LoginRedirect(Authenticated(storage, email), pathname).None?
    ensures LoginRedirect(Registered(storage, user), pathname).None?
    ensures SignupRedirect(Registered(storage, user)) == Some("index.html")
    ensures LoginRedirect(Logout(storage), pathname).Some? <==> CurrentPage(pathname) != "signup.html"
    ensures SignupRedirect(Logout(storage)).None?
    ensures RememberedEmailKey in storage ==> Logout(storage)[RememberedEmailKey] == storage[RememberedEmailKey]
  {
  }
}
