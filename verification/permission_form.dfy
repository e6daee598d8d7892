/** The add/edit permission dialog: name and description, the validation run on submit
    and the field update. It checks only that both fields are filled in; the naming
    convention is checked only by the validator in `server/middleware.js`, which `server.js`
    does not mount. */
module PermissionForm {

  import opened Seqs
  import opened FormErrors
  import Text
  import J = Json
  import RequestValidation

  datatype Field = Name | Description

  datatype Data = Data(name: string, description: string)

  const INITIAL: Data := Data("", "")

  const NAME_REQUIRED: string := "Permission name is required"
  const DESCRIPTION_REQUIRED: string := "Description is required"

  /** The errors object built from the outcome of each field's test. */
  function Collect(nameBlank: bool, descriptionBlank: bool): (errors: Errors<Field>)
    ensures Name in errors <==> nameBlank
    ensures Description in errors <==> descriptionBlank
    ensures Name in errors ==> errors[Name] == NAME_REQUIRED
    ensures Description in errors ==> errors[Description] == DESCRIPTION_REQUIRED
  {
    var e1: Errors<Field> := if nameBlank then map[Name := NAME_REQUIRED] else map[];
    if descriptionBlank then e1[Description := DESCRIPTION_REQUIRED] else e1
  }

  /** `validateForm`: a blank name and a blank description are each reported. */
  function Validate(d: Data): (errors: Errors<Field>)
    ensures Name in errors <==> Text.Trim(d.name) == []
    ensures Description in errors <==> Text.Trim(d.description) == []
    ensures Name in errors ==> errors[Name] == NAME_REQUIRED
    ensures Description in errors ==> errors[Description] == DESCRIPTION_REQUIRED
  {
    Collect(Text.Trim(d.name) == [], Text.Trim(d.description) == [])
  }

  predicate Valid(d: Data)
  {
    Text.Trim(d.name) != [] && Text.Trim(d.description) != []
  }

  /** `handleSubmit`: the data reaches the page only when validation finds nothing. */
  function Submit(d: Data): (s: Submission<Field, Data>)
    ensures s.errors == Validate(d)
    ensures s.submitted.Some? <==> Valid(d)
    ensures s.submitted.Some? ==> s.submitted.value == d
  {
    var errors := Validate(d);
    assert NoErrors(errors) <==> Valid(d) by {
      if !Valid(d) {
        assert Name in errors || Description in errors;
      }
    }
    Submission(errors, if NoErrors(errors) then Some(d) else None)
  }

  datatype Edit = Edit(data: Data, errors: Errors<Field>)

  /** `handleChange`: the named field takes the typed value, the other is kept, and only
      that field's error is blanked. */
  function HandleChange(d: Data, errors: Errors<Field>, field: Field, value: string): (r: Edit)
    ensures field == Name ==> r.data == d.(name := value)
    ensures field == Description ==> r.data == d.(description := value)
    ensures r.errors == ClearError(errors, field)
  {
    var data := if field == Name then d.(name := value) else d.(description := value);
    Edit(data, ClearError(errors, field))
  }

  /** A whitespace-only name is reported as missing. */
  lemma WhiteSpaceNameIsRejected(d: Data)
    requires Text.AllWhiteSpace(d.name)
    ensures Validate(d)[Name] == NAME_REQUIRED
  {
    Text.BlankIffAllWhiteSpace(d.name);
  }

  /** The dialog and the request validator disagree: any name starting with a capital
      letter passes the dialog but is refused by the validator's naming rule, were the
      validator installed. */
  lemma DialogAcceptsWhatTheValidatorRefuses(name: string, description: string,
                                          existing: seq<RequestValidation.StoredPermission>, now: int)
    requires name != [] && 'A' <= name[0] <= 'Z'
    requires description != [] && !Text.IsWhiteSpace(description[0])
    ensures Valid(Data(name, description))
    ensures RequestValidation.Validate("POST", "/permissions",
              map["name" := J.JStr(name), "description" := J.JStr(description)], existing, now)
            == RequestValidation.Reject(400, RequestValidation.PERMISSION_NAME_FORMAT)
  {
    Text.TrimKeepsVisible(name, 0);
    Text.TrimKeepsVisible(description, 0);
    var body := map["name" := J.JStr(name), "description" := J.JStr(description)];
    assert RequestValidation.Present(body, "name") && RequestValidation.Present(body, "description");
    assert !Text.IsPermissionName(J.JsString(body["name"]));
  }
}
