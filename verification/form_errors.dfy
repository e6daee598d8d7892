/** The error map the three forms share: one message per failing field, rebuilt from
    scratch on every submit, and blanked field by field as the user edits. */
module FormErrors {

  import opened Seqs

  /** Field to message. A blanked entry keeps its key with the falsy message "". */
  type Errors<F> = map<F, string>

  /** `Object.keys(newErrors).length === 0`. */
  predicate NoErrors<F>(errors: Errors<F>)
  {
    |errors| == 0
  }

  /** `if (errors[name]) setErrors(prev => ({ ...prev, [name]: '' }))`: a truthy message
      for the edited field is blanked; every other entry, and a field with no truthy
      message, stays as it was. */
  function ClearError<F>(errors: Errors<F>, field: F): (r: Errors<F>)
    ensures r.Keys == errors.Keys
    ensures field in errors ==> r[field] == ""
    ensures forall f :: f in errors && f != field ==> r[f] == errors[f]
    ensures field !in errors || errors[field] == "" ==> r == errors
  {
    if field in errors && errors[field] != "" then errors[field := ""] else errors
  }

  /** Blanking is idempotent. */
  lemma ClearErrorTwice<F>(errors: Errors<F>, field: F)
    ensures ClearError(ClearError(errors, field), field) == ClearError(errors, field)
  {
  }

  /** What submitting a form does: the fresh error map is shown, and the form data goes to
      the page's handler only when that map is empty. */
  datatype Submission<F, D> = Submission(errors: Errors<F>, submitted: Option<D>)
}
