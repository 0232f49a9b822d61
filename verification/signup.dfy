/** The sign-up page (signup.js): the four field checks, the rule that the user is
    registered only when all of them pass, and the registration record kept in storage.
    The email and password patterns are written out as string predicates. Storage is a map
    from key to text. */
module Signup {
  import opened Common

  const IsLoggedInKey := "isLoggedIn"
  const UserEmailKey := "userEmail"
  const UserNameKey := "userName"

  /** `localStorage.getItem('isLoggedIn') === 'true'`. */
  predicate LoggedIn(storage: map<string, string>) {
    IsLoggedInKey in storage && storage[IsLoggedInKey] == "true"
  }

  // ---------------------------------------------------------------------------
  // Name (signup.js:48)

  /** `name.trim().length >= 2`, the length in UTF-16 code units. */
  predicate ValidName(name: string) {
    Utf16Length(Trim(name)) >= 2
  }

  /** A one-emoji name is two code units long, so it passes the name check, while a
      single ordinary letter does not. */
  lemma OneEmojiIsLongEnough()
    ensures ValidName("\U{1F600}") && !ValidName("a")
  {
    TrimKeepsUnspacedText("\U{1F600}");
    TrimKeepsUnspacedText("a");
  }

  // ---------------------------------------------------------------------------
  // Email (signup.js:55-56)

  /** `[^\s@]`: a character an address part may hold. */
  predicate EmailChar(c: char) {
    !IsSpace(c) && c != '@'
  }

  predicate EmailChars(s: string) {
    forall k :: 0 <= k < |s| ==> EmailChar(s[k])
  }

  /** The pattern `^[^\s@]+@[^\s@]+\.[^\s@]+$` as a decomposition of the whole text: a
      non-empty part, '@', a non-empty part, '.', a non-empty part, none of the parts
      holding white space or '@'. */
  ghost predicate EmailPattern(s: string) {
    exists at, dot :: 0 < at && at + 1 < dot && dot + 1 < |s| && s[at] == '@' && s[dot] == '.'
      && EmailChars(s[..at]) && EmailChars(s[at + 1..dot]) && EmailChars(s[dot + 1..])
  }

  /** The email check as a scan: no white space, a first '@' that is not the first
      character and is the only one, and a domain after it with a '.' that is neither its
      first nor its last character. */
  predicate ValidEmail(s: string) {
    NoSpace(s) &&
    match FindIndex(s, (c: char) => c == '@')
    case None => false
    case Some(at) =>
      var domain := s[at + 1..];
      at > 0 && '@' !in domain && |domain| >= 3 && '.' in domain[1..|domain| - 1]
  }

  /** Every text the scan accepts matches the pattern. */
  lemma {:induction false} ValidEmailMatches(s: string)
    requires ValidEmail(s)
    ensures EmailPattern(s)
  {
    var at := FindIndex(s, (c: char) => c == '@').value;
    var domain := s[at + 1..];
    var k :| 0 <= k < |domain[1..|domain| - 1]| && domain[1..|domain| - 1][k] == '.';
    var dot := at + 2 + k;
    assert s[dot] == '.';
    assert EmailChars(s[..at]);
    assert forall j :: at + 1 <= j < |s| ==> s[j] == domain[j - at - 1];
    assert EmailChars(s[at + 1..dot]);
    assert EmailChars(s[dot + 1..]);
  }

  /** The three parts of a match hold no white space and no '@'. */
  lemma {:induction false} PatternParts(s: string, at: int, dot: int)
    requires 0 < at && at + 1 < dot && dot + 1 < |s| && s[at] == '@' && s[dot] == '.'
    requires EmailChars(s[..at]) && EmailChars(s[at + 1..dot]) && EmailChars(s[dot + 1..])
    ensures NoSpace(s)
    ensures forall j :: 0 <= j < |s| && j != at ==> s[j] != '@'
  {
    forall j | 0 <= j < |s|
      ensures !IsSpace(s[j])
      ensures j != at ==> s[j] != '@'
    {
      if j < at {
        assert s[j] == s[..at][j];
      } else if at < j < dot {
        assert s[j] == s[at + 1..dot][j - at - 1];
      } else if dot < j {
        assert s[j] == s[dot + 1..][j - dot - 1];
      }
    }
  }

  /** Every text matching the pattern passes the scan. */
  lemma {:induction false} PatternPassesScan(s: string)
    requires EmailPattern(s)
    ensures ValidEmail(s)
  {
    var at, dot :| 0 < at && at + 1 < dot && dot + 1 < |s| && s[at] == '@' && s[dot] == '.'
      && EmailChars(s[..at]) && EmailChars(s[at + 1..dot]) && EmailChars(s[dot + 1..]);
    PatternParts(s, at, dot);
    FindIndexIs(s, (c: char) => c == '@', at);
    var domain := s[at + 1..];
    assert |domain| >= 3;
    assert '.' in domain[1..|domain| - 1] by {
      assert domain[1..|domain| - 1][dot - at - 2] == '.';
    }
    assert '@' !in domain by {
      forall j | 0 <= j < |domain| ensures domain[j] != '@' {
        assert domain[j] == s[at + 1 + j];
      }
    }
    assert FindIndex(s, (c: char) => c == '@') == Some(at);
  }

  /** The scan accepts exactly the texts the pattern matches. */
  lemma ValidEmailMatchesPattern(s: string)
    ensures ValidEmail(s) <==> EmailPattern(s)
  {
    if ValidEmail(s) { ValidEmailMatches(s); }
    if EmailPattern(s) { PatternPassesScan(s); }
  }

  /** A valid address has no white space, so trimming it changes nothing: the registered
      email is the typed one. */
  lemma ValidEmailIsTrimmed(s: string)
    requires ValidEmail(s)
    ensures Trim(s) == s
  {
    TrimKeepsUnspacedText(s);
  }

  // ---------------------------------------------------------------------------
  // Password (signup.js:63-64)

  predicate IsLower(c: char) { 'a' <= c <= 'z' }
  predicate IsUpper(c: char) { 'A' <= c <= 'Z' }
  predicate IsDigit(c: char) { '0' <= c <= '9' }
  predicate IsSpecial(c: char) { c in "@$!%*?&" }

  /** `[A-Za-z\d@$!%*?&]`. */
  predicate PasswordChar(c: char) {
    IsLower(c) || IsUpper(c) || IsDigit(c) || IsSpecial(c)
  }

  /** The pattern with its four look-aheads: at least eight characters, all of them
      letters, digits or one of @$!%*?&, with at least one lower-case letter, one
      upper-case letter, one digit and one of @$!%*?&. */
  predicate ValidPassword(p: string) {
    |p| >= 8
    && (forall k :: 0 <= k < |p| ==> PasswordChar(p[k]))
    && (exists k :: 0 <= k < |p| && IsLower(p[k]))
    && (exists k :: 0 <= k < |p| && IsUpper(p[k]))
    && (exists k :: 0 <= k < |p| && IsDigit(p[k]))
    && (exists k :: 0 <= k < |p| && IsSpecial(p[k]))
  }

  // ---------------------------------------------------------------------------
  // The form (signup.js:37-99)

  /** Which error messages are shown. */
  datatype SignupErrors = SignupErrors(name: bool, email: bool, password: bool, confirmPassword: bool)

  /** The registration payload (signup.js:78-82). */
  datatype UserData = UserData(name: string, email: string, password: string)

  /** `validateForm` (signup.js:37-86): every check runs and shows its own error; the user is
      registered exactly when none failed, with the trimmed name, the email as typed (a
      valid one has nothing to trim) and the password verbatim. */
  method ValidateForm(name: string, email: string, password: string, confirmPassword: string)
    returns (errors: SignupErrors, registration: Option<UserData>)
    ensures errors.name <==> !ValidName(name)
    ensures errors.email <==> !ValidEmail(email)
    ensures errors.password <==> !ValidPassword(password)
    ensures errors.confirmPassword <==> password != confirmPassword
    ensures registration.Some? <==> ValidName(name) && ValidEmail(email) && ValidPassword(password) && password == confirmPassword
    ensures registration.Some? ==> registration.value == UserData(Trim(name), email, password)
  {
    var isValid := true;
    errors := SignupErrors(false, false, false, false);
    if Utf16Length(Trim(name)) < 2 {
      errors := errors.(name := true);
      isValid := false;
    }
    if !ValidEmail(email) {
      errors := errors.(email := true);
      isValid := false;
    }
    if !ValidPassword(password) {
      errors := errors.(password := true);
      isValid := false;
    }
    if password != confirmPassword {
      errors := errors.(confirmPassword := true);
      isValid := false;
    }
    registration := None;
    if isValid {
      ValidEmailIsTrimmed(email);
      registration := Some(UserData(Trim(name), Trim(email), password));
    }
  }

  /** `registerUser` (signup.js:88-99): the user is logged in under the given email and
      name; no other key changes. */
  function Registered(storage: map<string, string>, user: UserData): (s: map<string, string>)
    ensures s.Keys == storage.Keys + {IsLoggedInKey, UserEmailKey, UserNameKey}
    ensures LoggedIn(s)
    ensures s[UserEmailKey] == user.email && s[UserNameKey] == user.name
    ensures forall k :: k in storage && k !in {IsLoggedInKey, UserEmailKey, UserNameKey} ==> s[k] == storage[k]
  {
    storage[IsLoggedInKey := "true"][UserEmailKey := user.email][UserNameKey := user.name]
  }

  /** `checkLoginStatus` (signup.js:102-107): a logged-in visitor is sent to the main page. */
  function SignupRedirect(storage: map<string, string>): (r: Option<string>)
    ensures r.Some? <==> LoggedIn(storage)
    ensures r.Some? ==> r.value == "index.html"
  {
    if IsLoggedInKey in storage && storage[IsLoggedInKey] == "true" then Some("index.html") else None
  }
}
