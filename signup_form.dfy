/**
 * The signup page: the checks it makes before sending anything, the body it
 * sends, and what it does with the answer (keep the session in local
 * storage, go to the dashboard for the role).
 */
module SignupForm {
  import opened Wrappers
  import opened Http
  import Text
  import Auth

  /** The form's fields as typed; `role` was chosen on the first step. */
  datatype Form = Form(name: string, email: string, password: string, role: string, skills: string, location: string)

  /** A character the email pattern's `[^\s@]` accepts. */
  predicate Plain(c: char) {
    !Text.IsSpace(c) && c != '@'
  }

  predicate AllPlain(s: string) {
    forall k | 0 <= k < |s| :: Plain(s[k])
  }

  /** The language of `^[^\s@]+@[^\s@]+\.[^\s@]+$`. */
  ghost predicate EmailPattern(s: string) {
    exists a: string, b: string, c: string ::
      a != "" && b != "" && c != "" && AllPlain(a) && AllPlain(b) && AllPlain(c) && s == a + "@" + b + "." + c
  }

  /** The domain has a dot that is neither its first nor its last character. */
  predicate InnerDot(domain: string) {
    exists d | 0 < d < |domain| - 1 :: domain[d] == '.'
  }

  /** The email test as the page runs it: no white space, exactly one `@`
      with something before it, and after it a domain with an inner dot. */
  function ValidEmail(s: string): (ok: bool)
    ensures ok <==> EmailPattern(s)
  {
    match Text.AfterFirst(s, '@')
    case None =>
      NotPatternWithoutAt(s);
      false
    case Some(domain) =>
      var local := Text.PrefixBefore(s, '@');
      var ok := local != "" && AllPlain(local) && AllPlain(domain) && InnerDot(domain);
      EmailPatternSplit(s, local, domain);
      ok
  }

  lemma NotPatternWithoutAt(s: string)
    requires '@' !in s
    ensures !EmailPattern(s)
  {
  }

  /** With `s` split at its first `@`, the pattern holds exactly when the
      parts pass the page's test. */
  lemma EmailPatternSplit(s: string, local: string, domain: string)
    requires '@' !in local && s == local + "@" + domain
    ensures EmailPattern(s) <==> local != "" && AllPlain(local) && AllPlain(domain) && InnerDot(domain)
  {
    if EmailPattern(s) {
      var a: string, b: string, c: string :|
        a != "" && b != "" && c != "" && AllPlain(a) && AllPlain(b) && AllPlain(c) && s == a + "@" + b + "." + c;
      assert s == a + ['@'] + (b + "." + c);
      assert s == local + ['@'] + domain;
      Text.PrefixBeforeAppend(a, '@', b + "." + c);
      Text.PrefixBeforeAppend(local, '@', domain);
      assert a == local;
      assert s[|a| + 1..] == b + "." + c;
      assert s[|local| + 1..] == domain;
      assert domain[|b|] == '.';
      assert AllPlain(domain) by {
        forall k | 0 <= k < |domain| ensures Plain(domain[k]) {
          if k < |b| { assert domain[k] == b[k]; }
          else if k > |b| { assert domain[k] == c[k - |b| - 1]; }
        }
      }
    }
    if local != "" && AllPlain(local) && AllPlain(domain) && InnerDot(domain) {
      var d :| 0 < d < |domain| - 1 && domain[d] == '.';
      var b, c := domain[..d], domain[d + 1..];
      assert domain == b + "." + c;
      assert s == local + "@" + b + "." + c;
      assert AllPlain(b) && AllPlain(c);
    }
  }

  /** `validateForm`: the message of the first check that fails, in the
      page's order, or nothing when the form may be sent. */
  function ValidateForm(f: Form): (error: Option<string>)
    ensures error.None? <==>
      && Text.Trim(f.name) != "" && Text.Trim(f.email) != "" && EmailPattern(f.email)
      && f.password != "" && Text.Utf16Length(f.password) >= 6
    ensures Text.Trim(f.name) == "" ==> error == Some("Name is required")
    ensures Text.Trim(f.name) != "" && Text.Trim(f.email) == "" ==> error == Some("Email is required")
    ensures Text.Trim(f.name) != "" && Text.Trim(f.email) != "" && !EmailPattern(f.email) ==>
      error == Some("Please enter a valid email address")
    ensures Text.Trim(f.name) != "" && Text.Trim(f.email) != "" && EmailPattern(f.email) && f.password == "" ==>
      error == Some("Password is required")
    ensures Text.Trim(f.name) != "" && Text.Trim(f.email) != "" && EmailPattern(f.email) && f.password != ""
            && Text.Utf16Length(f.password) < 6 ==>
      error == Some("Password must be at least 6 characters long")
  {
    if Text.Trim(f.name) == "" then Some("Name is required")
    else if Text.Trim(f.email) == "" then Some("Email is required")
    else if !ValidEmail(f.email) then Some("Please enter a valid email address")
    else if f.password == "" then Some("Password is required")
    else if Text.Utf16Length(f.password) < 6 then Some("Password must be at least 6 characters long")
    else None
  }

  /** The pattern is tested on the email as typed, not trimmed: white space
      around an address the emptiness check accepts still fails it. */
  lemma SurroundingSpaceRejected(f: Form)
    requires Text.Trim(f.name) != "" && Text.Trim(f.email) != ""
    requires Text.IsSpace(f.email[0]) || Text.IsSpace(f.email[|f.email| - 1])
    ensures ValidateForm(f) == Some("Please enter a valid email address")
  {
    assert !Plain(f.email[0]) || !Plain(f.email[|f.email| - 1]);
  }

  /** The body the page sends to signup. */
  datatype Payload = Payload(name: string, email: string, password: string, role: string,
                             skills: Option<string>, location: Option<string>)

  /** `text.trim() || null`. */
  function TrimmedOrNull(text: string): (r: Option<string>)
    ensures r.None? <==> Text.Trim(text) == ""
    ensures r.Some? ==> r.value == Text.Trim(text)
  {
    if Text.Trim(text) == "" then None else Some(Text.Trim(text))
  }

  function BuildPayload(f: Form): (p: Payload)
    ensures p.name == Text.Trim(f.name) && p.email == Text.ToLower(Text.Trim(f.email))
    ensures p.password == f.password && p.role == f.role
    ensures p.skills == TrimmedOrNull(f.skills) && p.location == TrimmedOrNull(f.location)
  {
    Payload(Text.Trim(f.name), Text.ToLower(Text.Trim(f.email)), f.password, f.role,
            TrimmedOrNull(f.skills), TrimmedOrNull(f.location))
  }

  /** An address of the pattern has no white space in it. */
  lemma PatternHasNoSpace(s: string)
    requires EmailPattern(s)
    ensures Text.NoSpace(s)
  {
    var a: string, b: string, c: string :|
      a != "" && b != "" && c != "" && AllPlain(a) && AllPlain(b) && AllPlain(c) && s == a + "@" + b + "." + c;
    forall k | 0 <= k < |s| ensures !Text.IsSpace(s[k]) {
      if k < |a| { assert s[k] == a[k]; }
      else if k == |a| { }
      else if k < |a| + 1 + |b| { assert s[k] == b[k - |a| - 1]; }
      else if k == |a| + 1 + |b| { }
      else { assert s[k] == c[k - |a| - 2 - |b|]; }
    }
  }

  /** A form the page lets through is a body the signup handler does not
      refuse for a missing field; its email is the typed one in small letters. */
  lemma ValidFormPassesSignupCheck(f: Form)
    requires ValidateForm(f).None?
    ensures var p := BuildPayload(f);
      Given(Some(p.name)) && Given(Some(p.email)) && Given(Some(p.password))
      && p.email == Text.ToLower(f.email)
  {
    PatternHasNoSpace(f.email);
    Text.TrimNoSpace(f.email);
  }

  /** Where the page sends a new user: the dashboard of the returned role. */
  function RedirectFor(role: string): (target: Option<string>)
    ensures target.Some? <==> role == "VOLUNTEER" || role == "ORGANIZATION"
    ensures role == "VOLUNTEER" ==> target == Some("/volunteer-dashboard")
    ensures role == "ORGANIZATION" ==> target == Some("/organization-dashboard")
  {
    if role == "VOLUNTEER" then Some("/volunteer-dashboard")
    else if role == "ORGANIZATION" then Some("/organization-dashboard")
    else None
  }

  /** The page's state: the form, the error line, the spinner, the bodies it
      has sent, local storage and the address it navigated to. */
  class SignupPage {
    var form: Form
    var error: string
    var loading: bool
    var sent: seq<Payload>
    var storage: map<string, string>
    var location: Option<string>

    constructor (form: Form, storage: map<string, string>)
      ensures this.form == form && this.storage == storage
      ensures error == "" && !loading && sent == [] && location.None?
    {
      this.form := form;
      this.storage := storage;
      error, loading, sent, location := "", false, [], None;
    }

    /** The part of `handleSubmit` after validation: send the body and act on the answer. */
    method Submit(payload: Payload, answer: Fetched<Auth.Session>)
      modifies this
      ensures form == old(form) && !loading && sent == old(sent) + [payload]
      ensures answer.Threw? ==>
        error == OrElse(answer.message, "An error occurred during signup")
        && storage == old(storage) && location == old(location)
      ensures answer.Replied? && answer.reply.Fail? ==>
        error == OrElse(Some(answer.reply.message), "Signup failed")
        && storage == old(storage) && location == old(location)
      ensures answer.Replied? && answer.reply.Ok? ==>
        var s := answer.reply.data;
        && error == ""
        && (s.token == "" ==> storage == old(storage))
        && (s.token != "" ==> storage == old(storage)["authToken" := s.token]["userRole" := s.user.role]
                                                     ["userId" := Text.NatToString(s.user.id)])
        && location == (if RedirectFor(s.user.role).Some? then RedirectFor(s.user.role) else old(location))
    {
      loading := true;
      error := "";
      sent := sent + [payload];
      match answer {
        case Threw(message) =>
          error := OrElse(message, "An error occurred during signup");
        case Replied(Fail(_, message)) =>
          error := OrElse(Some(message), "Signup failed");
        case Replied(Ok(_, _, session)) =>
          if session.token != "" {
            storage := storage["authToken" := session.token];
            storage := storage["userRole" := session.user.role];
            storage := storage["userId" := Text.NatToString(session.user.id)];
          }
          var target := RedirectFor(session.user.role);
          if target.Some? {
            location := target;
          }
      }
      loading := false;
    }

    /** `handleSubmit`, with `answer` what the signup request comes to: an
        invalid form only shows its message and sends nothing. */
    method HandleSubmit(answer: Fetched<Auth.Session>)
      modifies this
      ensures form == old(form) && !loading
      ensures ValidateForm(form).Some? ==>
        && error == ValidateForm(form).value
        && sent == old(sent) && storage == old(storage) && location == old(location)
      ensures ValidateForm(form).None? ==> sent == old(sent) + [BuildPayload(form)]
      ensures ValidateForm(form).None? && answer.Replied? && answer.reply.Ok? ==> error == ""
      ensures ValidateForm(form).None? && !(answer.Replied? && answer.reply.Ok?) ==>
        error != "" && storage == old(storage) && location == old(location)
    {
      var invalid := ValidateForm(form);
      if invalid.Some? {
        error := invalid.value;
        loading := false;
        return;
      }
      Submit(BuildPayload(form), answer);
    }
  }
}
