/** The add/edit user dialog: its four fields, the validation run on submit, and the
    per-keystroke field update. */
module UserForm {

  import opened Seqs
  import opened FormErrors
  import Text

  datatype Field = Name | Email | Role | Status

  datatype Data = Data(name: string, email: string, role: string, status: string)

  /** The empty form a new user starts from. */
  const INITIAL: Data := Data("", "", "", "Active")

  const NAME_REQUIRED: string := "Name is required"
  const EMAIL_REQUIRED: string := "Email is required"
  const EMAIL_INVALID: string := "Invalid email format"
  const ROLE_REQUIRED: string := "Role is required"

  function Get(d: Data, f: Field): string
  {
    match f
    case Name => d.name
    case Email => d.email
    case Role => d.role
    case Status => d.status
  }

  /** An address that passes the e-mail test is never blank. */
  lemma EmailIsNotBlank(s: string)
    requires Text.IsEmail(s)
    ensures Text.Trim(s) != []
  {
    var at := Text.IndexOf(s, '@');
    assert s[..at][0] == s[0];
    Text.TrimKeepsVisible(s, 0);
  }

  /** The three checks of `validateForm` in source order, given their outcomes: the
      e-mail test writes the same key as the blank test and so overwrites it. An address
      that fails only the blank test cannot occur, since a valid one is never blank. */
  function Collect(nameBlank: bool, emailBlank: bool, emailBad: bool, roleEmpty: bool): (errors: Errors<Field>)
    requires emailBlank ==> emailBad
    ensures Name in errors <==> nameBlank
    ensures Email in errors <==> emailBad
    ensures Role in errors <==> roleEmpty
    ensures Status !in errors
    ensures Name in errors ==> errors[Name] == NAME_REQUIRED
    ensures Email in errors ==> errors[Email] == EMAIL_INVALID
    ensures Role in errors ==> errors[Role] == ROLE_REQUIRED
  {
    var e1: Errors<Field> := if nameBlank then map[Name := NAME_REQUIRED] else map[];
    var e2 := if emailBlank then e1[Email := EMAIL_REQUIRED] else e1;
    var e3 := if emailBad then e2[Email := EMAIL_INVALID] else e2;
    if roleEmpty then e3[Role := ROLE_REQUIRED] else e3
  }

  /** `validateForm`: a blank name, a value that fails the e-mail test, and an empty role
      are each reported, and nothing else. The e-mail test runs after the blank test and
      overwrites its message, so every e-mail error reads "Invalid email format". */
  function Validate(d: Data): (errors: Errors<Field>)
    ensures Name in errors <==> Text.Trim(d.name) == []
    ensures Email in errors <==> !Text.IsEmail(d.email)
    ensures Role in errors <==> d.role == []
    ensures Status !in errors
    ensures Name in errors ==> errors[Name] == NAME_REQUIRED
    ensures Email in errors ==> errors[Email] == EMAIL_INVALID
    ensures Role in errors ==> errors[Role] == ROLE_REQUIRED
  {
    var emailBad := !Text.IsEmail(d.email);
    assert Text.Trim(d.email) == [] ==> emailBad by {
      if !emailBad {
        EmailIsNotBlank(d.email);
      }
    }
    Collect(Text.Trim(d.name) == [], Text.Trim(d.email) == [], emailBad, d.role == [])
  }

  /** The form is valid exactly when the name is not blank, the e-mail passes the test and
      a role is chosen. */
  predicate Valid(d: Data)
  {
    Text.Trim(d.name) != [] && Text.IsEmail(d.email) && d.role != []
  }

  /** `handleSubmit`: the data reaches the page only when validation finds nothing. */
  function Submit(d: Data): (s: Submission<Field, Data>)
    ensures s.errors == Validate(d)
    ensures s.submitted.Some? <==> Valid(d)
    ensures s.submitted.Some? ==> s.submitted.value == d
  {
    var errors := Validate(d);
    assert NoErrors(errors) <==> Valid(d) by {
      if !Valid(d) {
        assert Name in errors || Email in errors || Role in errors;
      }
    }
    Submission(errors, if NoErrors(errors) then Some(d) else None)
  }

  /** The form the dialog opens with is rejected on all three checked fields. */
  lemma InitialIsRejected()
    ensures Name in Validate(INITIAL) && Email in Validate(INITIAL) && Role in Validate(INITIAL)
    ensures Validate(INITIAL)[Email] == EMAIL_INVALID
  {
    assert Text.Trim("") == [];
    assert !Text.IsEmail("");
  }

  /** The state a keystroke changes: the data and the shown errors. */
  datatype Edit = Edit(data: Data, errors: Errors<Field>)

  /** `handleChange`: the named field takes the typed value, every other field is kept,
      and only that field's error is blanked. */
  function HandleChange(d: Data, errors: Errors<Field>, field: Field, value: string): (r: Edit)
    ensures Get(r.data, field) == value
    ensures forall f :: f != field ==> Get(r.data, f) == Get(d, f)
    ensures r.errors == ClearError(errors, field)
  {
    var data := match field
      case Name => d.(name := value)
      case Email => d.(email := value)
      case Role => d.(role := value)
      case Status => d.(status := value);
    Edit(data, ClearError(errors, field))
  }

  /** A whitespace-only name is reported as missing. */
  lemma WhiteSpaceNameIsRejected(d: Data)
    requires |d.name| > 0 && Text.AllWhiteSpace(d.name)
    ensures Validate(d)[Name] == NAME_REQUIRED
  {
    Text.BlankIffAllWhiteSpace(d.name);
  }
}
