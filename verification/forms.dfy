/** The error bookkeeping the sign-in and sign-up forms share: a map from field to
    message that validation rebuilds and that typing into a field clears. */
module Forms {
  import opened Common

  /** `if (errors[name]) setErrors({ ...errors, [name]: '' })`: a shown error of the edited
      field is blanked; no other entry changes. */
  function ClearError<F>(errors: map<F, string>, name: F): (r: map<F, string>)
    ensures r.Keys == errors.Keys
    ensures forall k :: k in errors && k != name ==> r[k] == errors[k]
    ensures name in errors ==> r[name] == ""
  {
    if name in errors && errors[name] != "" then errors[name := ""] else errors
  }
}
