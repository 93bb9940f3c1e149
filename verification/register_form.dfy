/** The sign-up form: its five fields, the per-field rules of `validateForm`, the address
    pattern, and what a submit sends and where it leads. */
module RegisterForm {
  import opened Common
  import opened Text
  import opened Forms
  import ServerAuth

  datatype Field = Username | Email | FullName | Password | ConfirmPassword

  datatype Form = Form(username: string, email: string, fullName: string, password: string,
                       confirmPassword: string)

  const EmptyForm := Form("", "", "", "", "")

  function Get(f: Form, k: Field): string {
    match k
    case Username => f.username
    case Email => f.email
    case FullName => f.fullName
    case Password => f.password
    case ConfirmPassword => f.confirmPassword
  }

  /** `{ ...prev, [name]: value }`. */
  function Set(f: Form, k: Field, v: string): (r: Form)
    ensures Get(r, k) == v
    ensures forall j :: j != k ==> Get(r, j) == Get(f, j)
  {
    match k
    case Username => f.(username := v)
    case Email => f.(email := v)
    case FullName => f.(fullName := v)
    case Password => f.(password := v)
    case ConfirmPassword => f.(confirmPassword := v)
  }

  /** A character of the class `[^\s@]`. */
  predicate Plain(c: char) {
    !IsSpace(c) && c != '@'
  }

  /** Every character from `lo` up to `hi` is plain. */
  predicate PlainBetween(s: string, lo: int, hi: int) {
    forall i :: lo <= i < hi && 0 <= i < |s| ==> Plain(s[i])
  }

  /** `/^[^\s@]+@[^\s@]+\.[^\s@]+$/.test(s)`: the whole string is a non-empty plain part,
      an `@`, a non-empty plain part, a `.`, and a non-empty plain part. */
  predicate EmailPattern(s: string) {
    exists a, b | 0 < a && a + 1 < b < |s| - 1 ::
      s[a] == '@' && s[b] == '.' && PlainBetween(s, 0, a) && PlainBetween(s, a + 1, b)
      && PlainBetween(s, b + 1, |s|)
  }

  /** The same test read off the string directly: no white space anywhere, exactly one
      `@` and not in front, and a `.` after it with a character on either side. */
  function CheckEmail(s: string): bool {
    match IndexOf(s, '@')
    case None => false
    case Some(a) =>
      && 0 < a
      && (forall i :: 0 <= i < |s| ==> !IsSpace(s[i]))
      && (forall i :: a < i < |s| ==> s[i] != '@')
      && (exists b :: a + 1 < b < |s| - 1 && s[b] == '.')
  }

  /** The direct check decides the pattern exactly. */
  lemma CheckEmailIsPattern(s: string)
    ensures CheckEmail(s) <==> EmailPattern(s)
  {
    CheckEmailSound(s);
    CheckEmailComplete(s);
  }

  lemma CheckEmailSound(s: string)
    ensures CheckEmail(s) ==> EmailPattern(s)
  {
    if CheckEmail(s) {
      var a := IndexOf(s, '@').value;
      var b :| a + 1 < b < |s| - 1 && s[b] == '.';
      assert PlainBetween(s, 0, a) && PlainBetween(s, a + 1, b) && PlainBetween(s, b + 1, |s|);
    }
  }

  lemma CheckEmailComplete(s: string)
    ensures EmailPattern(s) ==> CheckEmail(s)
  {
    if EmailPattern(s) {
      var a, b :| 0 < a && a + 1 < b < |s| - 1 && s[a] == '@' && s[b] == '.'
                  && PlainBetween(s, 0, a) && PlainBetween(s, a + 1, b) && PlainBetween(s, b + 1, |s|);
      FirstAt(s, a);
      PatternPlain(s, a, b);
    }
  }

  /** Around the `@` and the `.` of the pattern everything is plain, so there is no white
      space anywhere and no second `@`. */
  lemma PatternPlain(s: string, a: int, b: int)
    requires 0 < a && a + 1 < b < |s| - 1 && s[a] == '@' && s[b] == '.'
    requires PlainBetween(s, 0, a) && PlainBetween(s, a + 1, b) && PlainBetween(s, b + 1, |s|)
    ensures forall i :: a < i < |s| ==> s[i] != '@'
    ensures forall i :: 0 <= i < |s| ==> !IsSpace(s[i])
  {
    assert !IsSpace('@') && !IsSpace('.');
    forall i | 0 <= i < |s| ensures !IsSpace(s[i]) && (a < i ==> s[i] != '@') {
      if i != a && i != b {
        assert Plain(s[i]);
      }
    }
  }

  lemma FirstAt(s: string, a: int)
    requires 0 <= a < |s| && s[a] == '@' && PlainBetween(s, 0, a)
    ensures IndexOf(s, '@') == Some(a)
  {
    assert s[a] in s;
  }

  const UsernameRequired := "Username richiesto"
  const UsernameTooShort := "Username deve essere almeno 3 caratteri"
  const EmailRequired := "Email richiesta"
  const EmailInvalid := "Email non valida"
  const FullNameRequired := "Nome completo richiesto"
  const PasswordRequired := "Password richiesta"
  const PasswordTooShort := "Password deve essere almeno 6 caratteri"
  const ConfirmRequired := "Conferma password richiesta"
  const PasswordsDiffer := "Le password non corrispondono"

  /** The rule of one field. Emptiness of the username, the email and the full name is
      judged after trimming; the username's length and the address pattern apply to the
      raw text, and the passwords are never trimmed. Lengths are JavaScript's, in UTF-16
      code units. */
  function Rule(f: Form, k: Field): Option<string> {
    match k
    case Username =>
      if IsBlank(f.username) then Some(UsernameRequired)
      else if CodeUnits(f.username) < 3 then Some(UsernameTooShort) else None
    case Email =>
      if IsBlank(f.email) then Some(EmailRequired)
      else if !CheckEmail(f.email) then Some(EmailInvalid) else None
    case FullName =>
      if IsBlank(f.fullName) then Some(FullNameRequired) else None
    case Password =>
      if f.password == "" then Some(PasswordRequired)
      else if CodeUnits(f.password) < 6 then Some(PasswordTooShort) else None
    case ConfirmPassword =>
      if f.confirmPassword == "" then Some(ConfirmRequired)
      else if f.password != f.confirmPassword then Some(PasswordsDiffer) else None
  }

  /** Lengths are counted as JavaScript counts them: a letter and an emoji make a long
      enough username, and three emoji a long enough password. */
  lemma EmojiLengths()
    ensures Rule(EmptyForm.(username := "a\U{1F600}"), Username).None?
    ensures Rule(EmptyForm.(password := "\U{1F600}\U{1F600}\U{1F600}"), Password).None?
  {
    CodeUnitsOfEmoji();
    assert !IsSpace("a\U{1F600}"[0]);
  }

  const Fields := {Username, Email, FullName, Password, ConfirmPassword}

  /** `validateForm`: a fresh error map with one message for each field whose rule fails. */
  function Validate(f: Form): (errors: map<Field, string>)
    ensures errors.Keys <= Fields
    ensures Username in errors <==> IsBlank(f.username) || CodeUnits(f.username) < 3
    ensures Username in errors ==>
              errors[Username] == if IsBlank(f.username) then UsernameRequired else UsernameTooShort
    ensures Email in errors <==> !EmailPattern(f.email)
    ensures Email in errors ==> errors[Email] == if IsBlank(f.email) then EmailRequired else EmailInvalid
    ensures FullName in errors <==> IsBlank(f.fullName)
    ensures FullName in errors ==> errors[FullName] == FullNameRequired
    ensures Password in errors <==> CodeUnits(f.password) < 6
    ensures Password in errors ==>
              errors[Password] == if f.password == "" then PasswordRequired else PasswordTooShort
    ensures ConfirmPassword in errors <==> f.confirmPassword == "" || f.password != f.confirmPassword
    ensures ConfirmPassword in errors ==>
              errors[ConfirmPassword] == if f.confirmPassword == "" then ConfirmRequired else PasswordsDiffer
  {
    EmailRule(f);
    var e := map k | k in Fields && Rule(f, k).Some? :: Rule(f, k).value;
    e
  }

  /** The address rule fails exactly off the pattern, with the message for a blank field
      when the field is blank. */
  lemma EmailRule(f: Form)
    ensures Rule(f, Email).Some? <==> !EmailPattern(f.email)
    ensures Rule(f, Email).Some? ==>
              Rule(f, Email).value == if IsBlank(f.email) then EmailRequired else EmailInvalid
  {
    CheckEmailIsPattern(f.email);
    PatternNotBlank(f.email);
  }

  /** An address that fits the pattern has an `@`, so it is never blank. */
  lemma PatternNotBlank(s: string)
    ensures EmailPattern(s) ==> !IsBlank(s)
  {
    if EmailPattern(s) {
      var a, b :| 0 < a && a + 1 < b < |s| - 1 && s[a] == '@' && s[b] == '.'
                  && PlainBetween(s, 0, a) && PlainBetween(s, a + 1, b) && PlainBetween(s, b + 1, |s|);
      assert !IsSpace(s[a]);
    }
  }

  /** `validateForm()` is true exactly when every rule holds. */
  lemma ValidExactly(f: Form)
    ensures Validate(f) == map[] <==>
              && !IsBlank(f.username) && CodeUnits(f.username) >= 3
              && EmailPattern(f.email)
              && !IsBlank(f.fullName)
              && CodeUnits(f.password) >= 6 && f.password == f.confirmPassword
  {
    var e := Validate(f);
    if e != map[] {
      EmptyWithoutFields(e);
    }
  }

  /** A map with no entry for any field is empty. */
  lemma EmptyWithoutFields(e: map<Field, string>)
    ensures Username !in e && Email !in e && FullName !in e && Password !in e && ConfirmPassword !in e
            ==> e == map[]
  {
    if e != map[] {
      var k :| k in e;
      assert k == Username || k == Email || k == FullName || k == Password || k == ConfirmPassword;
    }
  }

  datatype State = State(form: Form, errors: map<Field, string>)

  /** `handleChange`: the edited field takes the new value, and only its error is cleared. */
  function HandleChange(s: State, k: Field, v: string): (r: State)
    ensures Get(r.form, k) == v && forall j :: j != k ==> Get(r.form, j) == Get(s.form, j)
    ensures r.errors.Keys == s.errors.Keys
    ensures forall j :: j in s.errors && j != k ==> r.errors[j] == s.errors[j]
    ensures k in s.errors ==> r.errors[k] == ""
  {
    State(Set(s.form, k, v), ClearError(s.errors, k))
  }

  datatype Submission = Submission(
    errors: map<Field, string>,
    request: Option<ServerAuth.Registration>,
    navigate: Option<string>)

  /** `handleSubmit`: validation first; an invalid form sends nothing. A valid one sends
      username, email, full name and password (the confirmation stays on the page), and
      a successful sign-up goes on to the login page. */
  function HandleSubmit(f: Form, succeeded: bool): (r: Submission)
    ensures r.errors == Validate(f)
    ensures r.request.Some? <==> Validate(f) == map[]
    ensures r.request.Some? ==>
              r.request.value == ServerAuth.Registration(f.username, f.email, f.password, f.fullName)
    ensures r.request.Some? ==> CodeUnits(r.request.value.username) >= 3 && CodeUnits(r.request.value.password) >= 6
                                && EmailPattern(r.request.value.email)
    ensures r.navigate.Some? <==> r.request.Some? && succeeded
    ensures r.navigate.Some? ==> r.navigate.value == "/login"
  {
    var errors := Validate(f);
    if errors != map[] then Submission(errors, None, None)
    else
      ValidExactly(f);
      var request := ServerAuth.Registration(f.username, f.email, f.password, f.fullName);
      Submission(errors, Some(request), if succeeded then Some("/login") else None)
  }
}
