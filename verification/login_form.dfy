/** The sign-in form: two fields, a required check on each, and the redirect back to the
    page that sent the visitor here. */
module LoginForm {
  import opened Common
  import opened Text
  import opened Forms

  datatype Field = Username | Password

  datatype Form = Form(username: string, password: string)

  function Get(f: Form, k: Field): string {
    match k
    case Username => f.username
    case Password => f.password
  }

  function Set(f: Form, k: Field, v: string): (r: Form)
    ensures Get(r, k) == v
    ensures forall j :: j != k ==> Get(r, j) == Get(f, j)
  {
    match k
    case Username => f.(username := v)
    case Password => f.(password := v)
  }

  const UsernameRequired := "Username richiesto"
  const PasswordRequired := "Password richiesta"

  /** `validateForm`: the username is required after trimming, the password as typed. */
  function Validate(f: Form): (errors: map<Field, string>)
    ensures errors.Keys <= {Username, Password}
    ensures Username in errors <==> IsBlank(f.username)
    ensures Username in errors ==> errors[Username] == UsernameRequired
    ensures Password in errors <==> f.password == ""
    ensures Password in errors ==> errors[Password] == PasswordRequired
  {
    var e0: map<Field, string> := map[];
    var e1 := if Trim(f.username) == "" then e0[Username := UsernameRequired] else e0;
    if f.password == "" then e1[Password := PasswordRequired] else e1
  }

  /** The form is accepted exactly when the username has a visible character and the
      password is not empty; a password of spaces only is accepted. */
  lemma ValidExactly(f: Form)
    ensures Validate(f) == map[] <==> !IsBlank(f.username) && f.password != ""
  {
    var e := Validate(f);
    if !IsBlank(f.username) && f.password != "" {
      assert e.Keys == {};
    }
    if e == map[] {
      assert Username !in e && Password !in e;
    }
  }

  /** `location.state?.from?.pathname || '/'`. */
  function RedirectTarget(from: Option<string>): (t: string)
    ensures from.Some? && from.value != "" ==> t == from.value
    ensures from.None? || from.value == "" ==> t == "/"
  {
    if from.Some? && from.value != "" then from.value else "/"
  }

  datatype State = State(form: Form, errors: map<Field, string>)

  /** `handleChange`: the edited field takes the new value, and only its error is cleared. */
  function HandleChange(s: State, k: Field, v: string): (r: State)
    ensures Get(r.form, k) == v && forall j :: j != k ==> Get(r.form, j) == Get(s.form, j)
    ensures r.errors.Keys == s.errors.Keys
    ensures forall j :: j in s.errors && j != k ==> r.errors[j] == s.errors[j]
    ensures k in s.errors ==> r.errors[k] == ""
  {
    State(Set(s.form, k, v), ClearError(s.errors, k))
  }

  datatype Submission = Submission(
    errors: map<Field, string>,
    request: Option<(string, string)>,
    navigate: Option<string>)

  /** `handleSubmit`: an invalid form sends nothing; a valid one sends the username and
      the password exactly as typed, and a successful sign-in returns to the origin page. */
  function HandleSubmit(f: Form, from: Option<string>, succeeded: bool): (r: Submission)
    ensures r.errors == Validate(f)
    ensures r.request.Some? <==> !IsBlank(f.username) && f.password != ""
    ensures r.request.Some? ==> r.request.value == (f.username, f.password)
    ensures r.navigate.Some? <==> r.request.Some? && succeeded
    ensures r.navigate.Some? ==> r.navigate.value == RedirectTarget(from)
  {
    ValidExactly(f);
    var errors := Validate(f);
    if errors != map[] then Submission(errors, None, None)
    else Submission(errors, Some((f.username, f.password)),
                    if succeeded then Some(RedirectTarget(from)) else None)
  }
}
